/** When channel access draws a persistence trial, and what comes of it, on the
    history of RSSI samples and drawn bytes alone.  The detector and the policy
    keep timestamps and states; here their meaning is stated without them, and
    every answer of an attempt is determined from its history. */
module Trials {
  import opened Primitives
  import opened ChannelAccess

  /** One accepted sample with the byte of the trial drawn on it, if any; for
      whom, and under which captured slot and persistence. */
  datatype Draw = Draw(at: real, raw: int, byte: Option<int>, id: int, slot: real, persist: int)

  // ---- The channel, from the samples

  /** Samples `i` to `j` hold the clear side for the whole hold, and none from
      `i` to the `n`th asserts busy. */
  ghost predicate HeldClear(h: seq<Draw>, i: int, j: int, n: int) {
    && 0 <= i <= j < n <= |h| && h[j].at - h[i].at >= HOLD
    && (forall k :: i <= k <= j ==> h[k].raw >= CLEAR_MIN)
    && (forall k :: i <= k < n ==> h[k].raw > BUSY_MAX)
  }

  /** The channel counts as clear after the first `n` samples. */
  ghost predicate ClearAfter(h: seq<Draw>, n: int) { exists i, j :: HeldClear(h, i, j, n) }

  ghost predicate InOrder(h: seq<Draw>) { forall k, l :: 0 <= k <= l < |h| ==> h[k].at <= h[l].at }

  lemma HeldClearOfPrefix(h: seq<Draw>, s: Draw, i: int, j: int, n: int)
    requires n <= |h|
    ensures HeldClear(h + [s], i, j, n) <==> HeldClear(h, i, j, n)
  {
    assert forall k :: 0 <= k < |h| ==> (h + [s])[k] == h[k];
  }

  lemma ClearOfPrefix(h: seq<Draw>, s: Draw, n: int)
    requires n <= |h|
    ensures ClearAfter(h + [s], n) <==> ClearAfter(h, n)
  {
    hide HeldClear;
    forall i, j ensures HeldClear(h + [s], i, j, n) <==> HeldClear(h, i, j, n) { HeldClearOfPrefix(h, s, i, j, n); }
  }

  /** The clear side has been held since sample `i`, and no earlier one could
      have begun that hold. */
  ghost predicate HoldsSince(h: seq<Draw>, i: int) {
    && 0 <= i < |h| && (forall k :: i <= k < |h| ==> h[k].raw >= CLEAR_MIN) && (i == 0 || h[i - 1].raw < CLEAR_MIN)
  }

  /** What the detector's fields mean. */
  ghost predicate DetectorLaw(d: Detector, h: seq<Draw>) {
    && InOrder(h) && (forall k :: 0 <= k < |h| ==> h[k].at <= d.lastNow)
    && (d.state == Clear <==> ClearAfter(h, |h|))
    && (d.state != Clear && d.since.None? ==> h == [] || h[|h| - 1].raw < CLEAR_MIN)
    && (d.state != Clear && d.since.Some? ==>
          exists i :: HoldsSince(h, i) && h[i].at == d.since.value && h[|h| - 1].at - h[i].at < HOLD)
  }

  /** One more sample keeps the channel clear if it is not busy; and a channel
      that was not clear becomes so exactly when a hold is completed. */
  lemma ClearGrows(h: seq<Draw>, s: Draw)
    ensures s.raw <= BUSY_MAX ==> !ClearAfter(h + [s], |h| + 1)
    ensures s.raw > BUSY_MAX && ClearAfter(h, |h|) ==> ClearAfter(h + [s], |h| + 1)
    ensures ClearAfter(h + [s], |h| + 1) && !ClearAfter(h, |h|) ==>
              s.raw >= CLEAR_MIN && exists i :: EndsHold(h + [s], i)
  {
    var h' := h + [s];
    assert h'[|h|] == s && forall k :: 0 <= k < |h| ==> h'[k] == h[k];
    if ClearAfter(h, |h|) && s.raw > BUSY_MAX {
      var i, j :| HeldClear(h, i, j, |h|);
      assert HeldClear(h', i, j, |h| + 1);
    }
    if ClearAfter(h', |h| + 1) && !ClearAfter(h, |h|) {
      var i, j :| HeldClear(h', i, j, |h| + 1);
      if j < |h| {
        assert HeldClear(h, i, j, |h|);
        assert false;
      }
      assert EndsHold(h', i);
    }
  }

  /** The last sample completes a hold that began with sample `i`. */
  ghost predicate EndsHold(h: seq<Draw>, i: int) { HeldClear(h, i, |h| - 1, |h|) }

  /** A hold that ends with the last sample began no earlier than the run of
      clear-side samples it belongs to. */
  lemma HoldBegins(h: seq<Draw>, i: int, since: int)
    requires EndsHold(h, i) && HoldsSince(h, since)
    ensures since <= i
  {
    if since > 0 {
      assert h[since - 1].raw < CLEAR_MIN;
    }
  }

  lemma HeldIsClear(h: seq<Draw>, i: int, j: int, n: int)
    requires HeldClear(h, i, j, n)
    ensures ClearAfter(h, n)
  {
  }

  /** A clear-side sample on a channel that is not clear, when the hold has run
      since sample `since`: the channel is clear exactly if the hold is over. */
  lemma HoldRuns(h: seq<Draw>, s: Draw, since: int)
    requires !ClearAfter(h, |h|) && s.raw >= CLEAR_MIN && InOrder(h + [s])
    requires since == |h| || HoldsSince(h, since)
    requires since == |h| ==> h == [] || h[|h| - 1].raw < CLEAR_MIN
    ensures HoldsSince(h + [s], since)
    ensures ClearAfter(h + [s], |h| + 1) <==> s.at - (h + [s])[since].at >= HOLD
  {
    hide ClearAfter;
    var h' := h + [s];
    assert h'[|h|] == s && forall k :: 0 <= k < |h| ==> h'[k] == h[k];
    ClearGrows(h, s);
    if ClearAfter(h', |h| + 1) {
      var i :| EndsHold(h', i);
      HoldBegins(h', i, since);
    }
    if s.at - h'[since].at >= HOLD {
      HeldIsClear(h', since, |h|, |h| + 1);
    }
  }

  lemma OrderGrows(d: Detector, h: seq<Draw>, s: Draw)
    requires DetectorLaw(d, h) && s.at >= d.lastNow
    ensures InOrder(h + [s]) && forall k :: 0 <= k <= |h| ==> (h + [s])[k].at <= s.at
  {
    hide ClearAfter;
  }

  lemma DetectLaw(d: Detector, h: seq<Draw>, s: Draw)
    requires DetectorLaw(d, h) && Rejected(d, s.at, s.raw).None?
    ensures DetectorLaw(Detect(d, s.at, s.raw), h + [s])
  {
    hide ClearAfter, InOrder, HoldsSince;
    OrderGrows(d, h, s);
    ClearGrows(h, s);
    if s.raw >= CLEAR_MIN && d.state != Clear {
      if d.since.None? {
        HoldRuns(h, s, |h|);
        assert HoldsSince(h + [s], |h|);
      } else {
        var since := SinceWhen(d, h);
        HoldRuns(h, s, since);
        assert (h + [s])[since] == h[since];
      }
    }
  }

  lemma SinceWhen(d: Detector, h: seq<Draw>) returns (i: int)
    requires DetectorLaw(d, h) && d.state != Clear && d.since.Some?
    ensures 0 <= i < |h| && HoldsSince(h, i) && h[i].at == d.since.value && h[|h| - 1].at - h[i].at < HOLD
  {
    i :| HoldsSince(h, i) && h[i].at == d.since.value && h[|h| - 1].at - h[i].at < HOLD;
  }

  /** The last sample outside the band in between. */
  ghost predicate Decisive(h: seq<Draw>, b: int) {
    && 0 <= b < |h| && (h[b].raw <= BUSY_MAX || h[b].raw >= CLEAR_MIN)
    && forall k :: b < k < |h| ==> BUSY_MAX < h[k].raw < CLEAR_MIN
  }

  ghost predicate LastBusy(h: seq<Draw>, b: int) {
    0 <= b < |h| && h[b].raw <= BUSY_MAX && forall k :: b < k < |h| ==> h[k].raw > BUSY_MAX
  }

  /** What the detector shows: the side of the last decisive sample, and when
      busy was last asserted. */
  ghost predicate ShownLaw(d: Detector, h: seq<Draw>) {
    && ShownState(d, h)
    && (d.lastBusy.None? <==> forall k :: 0 <= k < |h| ==> h[k].raw > BUSY_MAX)
    && (d.lastBusy.Some? ==> exists b :: LastBusy(h, b) && h[b].at == d.lastBusy.value)
  }

  ghost predicate ShownState(d: Detector, h: seq<Draw>) {
    && (d.state == Unknown <==> forall k :: 0 <= k < |h| ==> BUSY_MAX < h[k].raw < CLEAR_MIN)
    && (d.state == Busy <==> exists b :: Decisive(h, b) && h[b].raw <= BUSY_MAX)
    && (d.state in {RecentRx, Clear} <==> exists b :: Decisive(h, b) && h[b].raw >= CLEAR_MIN)
  }

  lemma DecisiveGrows(h: seq<Draw>, s: Draw)
    ensures BUSY_MAX < s.raw < CLEAR_MIN ==> forall b :: Decisive(h + [s], b) <==> Decisive(h, b)
    ensures !(BUSY_MAX < s.raw < CLEAR_MIN) ==> forall b :: Decisive(h + [s], b) <==> b == |h|
  {
    var h' := h + [s];
    assert h'[|h|] == s && forall k :: 0 <= k < |h| ==> h'[k] == h[k];
  }

  lemma LastBusyGrows(h: seq<Draw>, s: Draw, b: int)
    ensures s.raw <= BUSY_MAX ==> LastBusy(h + [s], |h|)
    ensures s.raw > BUSY_MAX && LastBusy(h, b) ==> LastBusy(h + [s], b) && (h + [s])[b] == h[b]
  {
    var h' := h + [s];
    assert h'[|h|] == s && forall k :: 0 <= k < |h| ==> h'[k] == h[k];
  }

  lemma ShowsState(d: Detector, h: seq<Draw>, s: Draw)
    requires ShownState(d, h)
    ensures ShownState(Detect(d, s.at, s.raw), h + [s])
  {
    var h' := h + [s];
    assert h'[|h|] == s && forall k :: 0 <= k < |h| ==> h'[k] == h[k];
    DecisiveGrows(h, s);
    DecisiveInside(h);
    if BUSY_MAX < s.raw < CLEAR_MIN {
      forall b | Decisive(h, b) ensures h'[b] == h[b] {}
    } else {
      assert Decisive(h', |h|);
    }
  }

  lemma DecisiveInside(h: seq<Draw>)
    ensures forall b :: Decisive(h, b) ==> 0 <= b < |h|
  {
  }

  lemma ShowsLaw(d: Detector, h: seq<Draw>, s: Draw)
    requires ShownLaw(d, h)
    ensures ShownLaw(Detect(d, s.at, s.raw), h + [s])
  {
    hide ShownState, LastBusy;
    ShowsState(d, h, s);
    var h' := h + [s];
    assert h'[|h|] == s && forall k :: 0 <= k < |h| ==> h'[k] == h[k];
    if s.raw <= BUSY_MAX {
      LastBusyGrows(h, s, 0);
    } else if d.lastBusy.Some? {
      var b := BusyWhen(d, h);
      LastBusyGrows(h, s, b);
    }
  }

  lemma BusyWhen(d: Detector, h: seq<Draw>) returns (b: int)
    requires ShownLaw(d, h) && d.lastBusy.Some?
    ensures 0 <= b < |h| && LastBusy(h, b) && h[b].at == d.lastBusy.value
  {
    b :| LastBusy(h, b) && h[b].at == d.lastBusy.value;
  }

  // ---- The slot, from the samples and the bytes drawn

  /** The current slot runs since sample `k`: the channel has been clear since,
      no trial was drawn after it, and on it either a trial was drawn or the
      channel became clear. */
  ghost predicate SlotSince(h: seq<Draw>, k: int) {
    && 0 <= k < |h| && (forall n :: k < n <= |h| ==> ClearAfter(h, n))
    && (forall l :: k < l < |h| ==> h[l].byte.None?) && (h[k].byte.Some? || !ClearAfter(h, k))
  }

  lemma OneSlot(h: seq<Draw>, k: int, l: int)
    requires SlotSince(h, k) && SlotSince(h, l)
    ensures k == l
  {
    hide ClearAfter;
  }

  /** After one more sample: a trial starts a new slot, so does a channel that
      became clear, and otherwise the slot runs on while the channel is clear. */
  lemma SlotGrows(h: seq<Draw>, s: Draw, k: int)
    requires s.byte.Some? ==> ClearAfter(h + [s], |h| + 1)
    ensures ClearAfter(h + [s], |h| + 1) && (s.byte.Some? || !ClearAfter(h, |h|)) ==> SlotSince(h + [s], |h|)
    ensures ClearAfter(h + [s], |h| + 1) && s.byte.None? && SlotSince(h, k) ==> SlotSince(h + [s], k)
  {
    hide ClearAfter;
    var h' := h + [s];
    ClearOfPrefix(h, s, |h|);
    if ClearAfter(h', |h| + 1) && s.byte.None? && SlotSince(h, k) {
      forall n | k < n <= |h'| ensures ClearAfter(h', n) {
        if n <= |h| { ClearOfPrefix(h, s, n); }
      }
      ClearOfPrefix(h, s, k);
    }
  }

  ghost function TrialCount(h: seq<Draw>): nat {
    if h == [] then 0 else TrialCount(h[..|h| - 1]) + if h[|h| - 1].byte.Some? then 1 else 0
  }

  /** How many of the samples left the channel not clear. */
  ghost function BusyCount(h: seq<Draw>): nat {
    if h == [] then 0 else BusyCount(h[..|h| - 1]) + if ClearAfter(h, |h|) then 0 else 1
  }

  lemma CountsGrow(h: seq<Draw>, s: Draw)
    ensures TrialCount(h + [s]) == TrialCount(h) + if s.byte.Some? then 1 else 0
    ensures BusyCount(h + [s]) == BusyCount(h) + if ClearAfter(h + [s], |h| + 1) then 0 else 1
  {
    hide ClearAfter;
    assert (h + [s])[..|h|] == h;
  }

  /** What the policy's fields mean while it waits. */
  ghost predicate PolicyLaw(c: Csma, h: seq<Draw>) {
    && c.decision.state == c.state && c.decision.nextSlot == c.nextSlot && c.decision.deadline == c.deadline
    && (c.state == WaitSlot || c.state == WaitClear)
    && (c.state == WaitSlot <==> ClearAfter(h, |h|))
    && (c.state == WaitSlot ==>
          exists k :: SlotSince(h, k) && c.nextSlot == Some(h[k].at + SlotSeconds(c.parameters)))
    && c.trials == TrialCount(h) && c.busyObservations == BusyCount(h)
  }

  ghost predicate AttemptLaw(a: Attempt, h: seq<Draw>) {
    && DetectorLaw(a.detector, h) && ShownLaw(a.detector, h) && PolicyLaw(a.csma, h)
    && a.csma.lastNow <= a.detector.lastNow
  }

  lemma NewAttemptLaw(startedAt: real, p: CsmaParameters)
    ensures AttemptLaw(NewAttempt(startedAt, p), [])
  {
  }

  /** A full slot has passed since the slot began. */
  ghost predicate SlotOver(h: seq<Draw>, now: real, slot: real) {
    exists k :: SlotSince(h, k) && now >= h[k].at + slot
  }

  /** The channel is clear with this sample, and a full slot has passed since the
      slot began: since the channel became clear, or since the last trial if
      that was later. */
  ghost predicate TrialIsDue(h: seq<Draw>, s: Draw, slot: real) {
    ClearAfter(h + [s], |h| + 1) && SlotOver(h, s.at, slot)
  }

  lemma WhenDue(a: Attempt, h: seq<Draw>, s: Draw)
    requires AttemptLaw(a, h) && Rejected(a.detector, s.at, s.raw).None?
    ensures TrialDue(Detect(a.detector, s.at, s.raw).state, a.csma.decision, s.at) <==>
              s.at < a.csma.deadline && TrialIsDue(h, s, SlotSeconds(a.csma.parameters))
  {
    hide ClearAfter, SlotSince, DetectorLaw;
    DetectLaw(a.detector, h, s);
    DetectorClear(Detect(a.detector, s.at, s.raw), h + [s]);
    SlotsAgree(a.csma, h, s.at);
  }

  lemma DetectorClear(d: Detector, h: seq<Draw>)
    requires DetectorLaw(d, h)
    ensures d.state == Clear <==> ClearAfter(h, |h|)
  {
  }

  lemma SlotsAgree(c: Csma, h: seq<Draw>, now: real)
    requires PolicyLaw(c, h)
    ensures SlotOver(h, now, SlotSeconds(c.parameters)) <==>
              c.state == WaitSlot && c.nextSlot.Some? && now >= c.nextSlot.value
  {
    hide ClearAfter;
    if c.state == WaitSlot {
      var k :| SlotSince(h, k) && c.nextSlot == Some(h[k].at + SlotSeconds(c.parameters));
      if l :| SlotSince(h, l) && now >= h[l].at + SlotSeconds(c.parameters) {
        OneSlot(h, k, l);
      }
    }
  }

  /** The policy keeps its law over a sample without a trial, before the
      deadline. */
  lemma PolicyWaits(c: Csma, h: seq<Draw>, s: Draw, busy: bool)
    requires PolicyLaw(c, h) && c.lastNow <= s.at < c.deadline && s.byte.None?
    requires busy == !ClearAfter(h + [s], |h| + 1)
    requires !(!busy && SlotOver(h, s.at, SlotSeconds(c.parameters)))
    ensures var (c', r) := Sense(c, s.at, busy, None);
            && r == Ok(c'.decision) && c'.state == (if busy then WaitClear else WaitSlot) && PolicyLaw(c', h + [s])
            && c'.lastNow == s.at
  {
    hide ClearAfter, SlotSince, TrialCount, BusyCount;
    SlotsAgree(c, h, s.at);
    CountsGrow(h, s);
    assert (h + [s])[|h|] == s;
    if c.state == WaitSlot {
      var k := SlotWhen(c, h);
      SlotGrows(h, s, k);
      assert (h + [s])[k] == h[k];
    } else {
      SlotGrows(h, s, 0);
    }
  }

  lemma SlotWhen(c: Csma, h: seq<Draw>) returns (k: int)
    requires PolicyLaw(c, h) && c.state == WaitSlot
    ensures 0 <= k < |h| && SlotSince(h, k) && c.nextSlot == Some(h[k].at + SlotSeconds(c.parameters))
  {
    hide ClearAfter;
    k :| SlotSince(h, k) && c.nextSlot == Some(h[k].at + SlotSeconds(c.parameters));
  }

  /** A due trial: within the parameter it grants access; otherwise a new slot
      begins with it. */
  lemma PolicyTries(c: Csma, h: seq<Draw>, s: Draw)
    requires PolicyLaw(c, h) && c.lastNow <= s.at < c.deadline && s.byte.Some? && 0 <= s.byte.value <= 255
    requires TrialIsDue(h, s, SlotSeconds(c.parameters))
    ensures var (c', r) := Sense(c, s.at, false, s.byte);
            && r == Ok(c'.decision) && c'.lastNow == s.at
            && (s.byte.value <= c.parameters.persist ==> c'.state == Ready)
            && (s.byte.value > c.parameters.persist ==> c'.state == WaitSlot && PolicyLaw(c', h + [s]))
  {
    hide ClearAfter, SlotSince, TrialCount, BusyCount;
    SlotsAgree(c, h, s.at);
    CountsGrow(h, s);
    SlotGrows(h, s, 0);
    assert (h + [s])[|h|] == s;
  }

  /** A sample on which the trial was due but drew nothing usable. */
  lemma PolicyStands(c: Csma, h: seq<Draw>, s: Draw, lastNow: real)
    requires PolicyLaw(c, h) && s.byte.None? && TrialIsDue(h, s, SlotSeconds(c.parameters))
    ensures PolicyLaw(c.(lastNow := lastNow), h + [s]) && c.state == WaitSlot
    ensures c.nextSlot.Some? && s.at >= c.nextSlot.value
  {
    hide ClearAfter, SlotSince, TrialCount, BusyCount;
    SlotsAgree(c, h, s.at);
    CountsGrow(h, s);
    var k := SlotWhen(c, h);
    SlotGrows(h, s, k);
    assert (h + [s])[k] == h[k];
  }

  /** The entry that an observation adds to the history. */
  function Drawn(now: real, raw: int, r: Result<Observation, AccessError>, id: int, slot: real, persist: int): Draw {
    Draw(now, raw, if r.Ok? then r.value.random else None, id, slot, persist)
  }

  /** The whole answer of a waiting attempt to an accepted sample, from the
      history: a trial is drawn exactly when one is due before the deadline; its
      byte decides; without one the attempt waits, for the channel or for the
      slot, until the deadline. */
  lemma AccessLaw(a: Attempt, h: seq<Draw>, now: real, raw: int, source: RandomSource, id: int)
    requires AttemptLaw(a, h) && Rejected(a.detector, now, raw).None?
    ensures var (a', r), p := Observe(a, now, raw, source), a.csma.parameters;
            var s := Drawn(now, raw, r, id, SlotSeconds(p), p.persist);
            var due := now < a.csma.deadline && TrialIsDue(h, s, SlotSeconds(p));
            && (due && source == NoSource ==> r == Err(RandomRequired))
            && (due && source == Raises ==> r == Err(RandomSourceFailed))
            && (due && source.Yields? && !(0 <= source.byte <= 255) ==> r == Err(BadRandom))
            && (due && source.Yields? && 0 <= source.byte <= 255 ==>
                  r.Ok? && r.value.random == Some(source.byte)
                  && r.value.csma.state == if source.byte <= p.persist then Ready else WaitSlot)
            && (!due ==> r.Ok? && r.value.random.None?
                         && r.value.csma.state == if now >= a.csma.deadline then TimedOut
                                                  else if ClearAfter(h + [s], |h| + 1) then WaitSlot else WaitClear)
            && (r.Err? || r.value.csma.state in {WaitClear, WaitSlot} ==> AttemptLaw(a', h + [s]))
            && (r.Ok? ==>
                  a'.csma.state == r.value.csma.state && r.value.now == now && r.value.busy == a'.detector.state)
            && a'.csma.parameters == p && a'.csma.deadline == a.csma.deadline && a'.detector.lastNow == now
  {
    hide ClearAfter, SlotOver, DetectorLaw, PolicyLaw, ShownLaw, Detect, TrialDue;
    var d, p := Detect(a.detector, now, raw), a.csma.parameters;
    var s := Draw(now, raw, None, id, SlotSeconds(p), p.persist);
    DetectLaw(a.detector, h, s);
    ShowsLaw(a.detector, h, s);
    DetectorClear(d, h + [s]);
    WhenDue(a, h, s);
    DetectClock(a.detector, now, raw);
    PolicyFacts(a.csma, h);
    if TrialDue(d.state, a.csma.decision, now) {
      PolicyStands(a.csma, h, s, now);
      PolicyStands(a.csma, h, s, a.csma.lastNow);
      if source.Yields? && 0 <= source.byte <= 255 {
        var drawn := s.(byte := Some(source.byte));
        SameChannel(h, s, drawn);
        DetectLaw(a.detector, h, drawn);
        ShowsLaw(a.detector, h, drawn);
        PolicyTries(a.csma, h, drawn);
      }
    } else if now < a.csma.deadline {
      PolicyWaits(a.csma, h, s, d.state != Clear);
    }
  }

  lemma DetectClock(d: Detector, now: real, raw: int)
    ensures Detect(d, now, raw).lastNow == now
  {
  }

  lemma PolicyFacts(c: Csma, h: seq<Draw>)
    requires PolicyLaw(c, h)
    ensures c.state in {WaitClear, WaitSlot} && c.decision.state == c.state && c.decision.deadline == c.deadline
  {
    hide ClearAfter, SlotSince;
  }

  /** The channel depends on the samples, not on what was drawn. */
  lemma SameChannel(h: seq<Draw>, s: Draw, t: Draw)
    requires s.at == t.at && s.raw == t.raw
    ensures ClearAfter(h + [s], |h| + 1) <==> ClearAfter(h + [t], |h| + 1)
  {
    if ClearAfter(h + [s], |h| + 1) { StillClear(h, s, t); }
    if ClearAfter(h + [t], |h| + 1) { StillClear(h, t, s); }
  }

  lemma StillClear(h: seq<Draw>, s: Draw, t: Draw)
    requires s.at == t.at && s.raw == t.raw && ClearAfter(h + [s], |h| + 1)
    ensures ClearAfter(h + [t], |h| + 1)
  {
    hide HeldClear;
    var i, j :| HeldClear(h + [s], i, j, |h| + 1);
    SameHold(h, s, t, i, j);
  }

  lemma SameHold(h: seq<Draw>, s: Draw, t: Draw, i: int, j: int)
    requires s.at == t.at && s.raw == t.raw
    ensures HeldClear(h + [s], i, j, |h| + 1) <==> HeldClear(h + [t], i, j, |h| + 1)
  {
    assert forall k :: 0 <= k <= |h| ==> (h + [s])[k].at == (h + [t])[k].at && (h + [s])[k].raw == (h + [t])[k].raw;
  }

  // ---- Busy between two trials

  /** An attempt that waits for a channel not heard clear yet. */
  predicate Waits(a: Attempt, p: CsmaParameters, begin: real, deadline: real) {
    && a.detector.state != Clear && a.detector.since.None? && a.detector.lastNow <= begin
    && a.csma.parameters == p && a.csma.deadline == deadline && a.csma.lastNow <= begin
    && a.csma.state == WaitClear && a.csma.decision.state == WaitClear
  }

  /** It and three samples on: the hold begins, it is over, and so is the slot. */
  function AfterSlot(a: Attempt, begin: real): (Attempt, Result<Observation, AccessError>) {
    var holding := Observe(a, begin, 100, NoSource).0;
    var clear := Observe(holding, begin + HOLD, 100, NoSource).0;
    Observe(clear, begin + HOLD + SlotSeconds(a.csma.parameters), 100, Yields(255))
  }

  lemma DrawsAndFails(a: Attempt, p: CsmaParameters, begin: real, deadline: real)
    requires Waits(a, p, begin, deadline) && p.persist < 255 && begin + HOLD + SlotSeconds(p) < deadline
    ensures var (a', r) := AfterSlot(a, begin);
            && r.Ok? && r.value.random == Some(255) && r.value.csma.state == WaitSlot
            && a'.detector.lastNow == a'.csma.lastNow == begin + HOLD + SlotSeconds(p)
            && a'.csma.parameters == p && a'.csma.deadline == deadline && a'.csma.state == WaitSlot
  {
  }

  lemma BusyMakesWait(a: Attempt, p: CsmaParameters, now: real, deadline: real)
    requires a.detector.lastNow == a.csma.lastNow == now < deadline && a.csma.parameters == p
    requires a.csma.deadline == deadline && a.csma.state == WaitSlot
    ensures var (a', r) := Observe(a, now, 50, NoSource);
            r.Ok? && r.value.busy == Busy && r.value.random == None && Waits(a', p, now, deadline)
  {
  }

  /** A hold and a slot, a busy sample, a hold and a slot. */
  function Interrupted(p: CsmaParameters): seq<(Attempt, Result<Observation, AccessError>)> {
    var now := HOLD + SlotSeconds(p);
    var first := AfterSlot(NewAttempt(0.0, p), 0.0);
    var between := Observe(first.0, now, 50, NoSource);
    [first, between, AfterSlot(between.0, now)]
  }

  predicate Drew(r: Result<Observation, AccessError>, byte: Option<int>) { r.Ok? && r.value.random == byte }

  /** Two trials of one request can have a busy sample between them: with any
      parameters under which a trial can fail and two holds and slots fit, one
      fails, the channel is busy, and after the next hold and slot there is
      another. */
  lemma BusyBetweenTrials(p: CsmaParameters)
    requires p.persist < 255 && 2.0 * (HOLD + SlotSeconds(p)) < p.maxWait
    ensures |Interrupted(p)| == 3 && Drew(Interrupted(p)[0].1, Some(255)) && Drew(Interrupted(p)[2].1, Some(255))
    ensures Drew(Interrupted(p)[1].1, None) && Interrupted(p)[1].1.value.busy == Busy
  {
    hide Observe, AfterSlot;
    var now := HOLD + SlotSeconds(p);
    var first := AfterSlot(NewAttempt(0.0, p), 0.0);
    DrawsAndFails(NewAttempt(0.0, p), p, 0.0, p.maxWait);
    BusyMakesWait(first.0, p, now, p.maxWait);
    DrawsAndFails(Observe(first.0, now, 50, NoSource).0, p, now, p.maxWait);
  }
}
