/** TXDELAY as a whole-flag preamble, preparation of a frame for the modem, the
    modem's selector and host-frame limits, and the guarantee that whatever is
    prepared can be received. */
module TxDelay {
  import opened Primitives
  import opened Fcs
  import opened Hdlc
  import opened Deframer

  const POST_FLAGS := 3
  const MAX_SELECTORS := 1920
  const MAX_HOST_FRAME := 255

  // ---- Preamble

  datatype Profile = Profile(units: int, requested: real, preFlags: nat, effective: real, overrun: real)

  datatype TxDelayError = OutOfRange

  function Resolve(units: int): Result<Profile, TxDelayError> {
    if !(0 <= units <= 255) then Err(OutOfRange) else
      var whole := (12 * units + 7) / 8;
      var preFlags := if whole < 1 then 1 else whole;
      var requested, effective := units as real * 0.01, (8 * preFlags) as real / 1200.0;
      Ok(Profile(units, requested, preFlags, effective, effective - requested))
  }

  /** The preamble is never shorter than requested, and for a positive request
      it is the least whole number of flags that is not. */
  lemma PreambleIsTight(units: int)
    requires 0 <= units <= 255
    ensures var p := Resolve(units).value;
            && p.units == units && 100.0 * p.requested == units as real
            && 1200.0 * p.effective == (8 * p.preFlags) as real && p.overrun == p.effective - p.requested
            && p.effective >= p.requested && p.preFlags >= 1
            && (units > 0 ==> p.preFlags >= 2 && 0.0 <= p.overrun < 8.0 / 1200.0)
            && (units > 0 ==> (8 * (p.preFlags - 1)) as real / 1200.0 < p.requested)
            && (p.preFlags == 1 <==> units == 0)
  {
  }

  // ---- Preparation for the modem

  datatype Prepared = Prepared(frameBytes: nat, selectorCount: nat, packed: Bytes)

  datatype PrepareError = InvalidFcs | TooManySelectors

  function BurstSelectors(frame: Bytes, preFlags: nat): Selectors
    requires frame != [] && preFlags >= 1
  {
    FrameToSelectors(frame, preFlags, POST_FLAGS, MARK).value
  }

  /** What preparation yields for a frame. */
  function Preparation(frame: Bytes, preFlags: nat): Result<Prepared, PrepareError>
    requires preFlags >= 1
  {
    if |frame| < 3 || !VerifyFcs(frame) then Err(InvalidFcs) else
      var s := BurstSelectors(frame, preFlags);
      if |s| > MAX_SELECTORS then Err(TooManySelectors) else Ok(Prepared(|frame|, |s|, Pack(s)))
  }

  lemma PreparationIsFaithful(frame: Bytes, preFlags: nat)
    requires preFlags >= 1
    ensures var r := Preparation(frame, preFlags);
            r.Ok? ==> frame != [] && IsPreparation(frame, preFlags, r.value)
                      && UnpackSelectors(r.value.packed, r.value.selectorCount) == Ok(BurstSelectors(frame, preFlags))
  {
    hide VerifyFcs, BurstSelectors, Pack, IsPacking, UnpackSelectors;
    var r := Preparation(frame, preFlags);
    if r.Ok? {
      var s := BurstSelectors(frame, preFlags);
      PackIsPacking(s);
      PackingRoundTrip(s, r.value.packed, r.value.packed);
    }
  }

  /** `_prepare_frame`: exactly the frames with a valid check sequence whose
      burst is within the modem's selector limit are prepared, and what is
      prepared is the wire form of that burst. */
  method PrepareFrame(frame: Bytes, preFlags: nat) returns (r: Result<Prepared, PrepareError>)
    requires preFlags >= 1
    ensures r == Err(InvalidFcs) <==> |frame| < 3 || !VerifyFcs(frame)
    ensures r == Err(TooManySelectors) <==>
              |frame| >= 3 && VerifyFcs(frame) && |BurstSelectors(frame, preFlags)| > MAX_SELECTORS
    ensures r.Ok? ==> IsPreparation(frame, preFlags, r.value)
    ensures r == Preparation(frame, preFlags)
  {
    hide Pack, IsPacking;
    if |frame| < 3 || !VerifyFcs(frame) {
      return Err(InvalidFcs);
    }
    var selectors := BurstSelectors(frame, preFlags);
    if |selectors| > MAX_SELECTORS {
      return Err(TooManySelectors);
    }
    var packed := PackSelectors(selectors);
    PackIsPacking(selectors);
    PackingRoundTrip(selectors, packed, Pack(selectors));
    r := Ok(Prepared(|frame|, |selectors|, packed));
  }

  ghost predicate IsPreparation(frame: Bytes, preFlags: nat, p: Prepared)
    requires frame != [] && preFlags >= 1
  {
    && p.frameBytes == |frame|
    && p.selectorCount == |BurstSelectors(frame, preFlags)| <= MAX_SELECTORS
    && IsPacking(BurstSelectors(frame, preFlags), p.packed)
  }

  function BurstLength(frame: Bytes, preFlags: nat): nat { 8 * preFlags + |Stuff(BitsLsb(frame))| + 24 }

  lemma BurstSelectorCount(frame: Bytes, preFlags: nat)
    requires frame != [] && preFlags >= 1
    ensures |BurstSelectors(frame, preFlags)| == BurstLength(frame, preFlags)
  {
  }

  /** With the default preamble every valid frame of up to 160 octets fits the
      modem and none beyond 192 does, whatever its contents. */
  lemma DefaultPreambleCapacity(frame: Bytes)
    requires frame != []
    ensures Resolve(30).value.preFlags == 45
    ensures |frame| <= 160 ==> |BurstSelectors(frame, 45)| <= MAX_SELECTORS
    ensures |frame| > 192 ==> |BurstSelectors(frame, 45)| > MAX_SELECTORS
  {
    BurstSelectorCount(frame, 45);
    StuffedLength(0, BitsLsb(frame));
  }

  // ---- Host frame

  datatype HostError = BadCount | LengthMismatch | FrameTooLong | Malformed

  const START: Byte := 0xE0
  const YWD_RF: Byte := 0x58
  const RF_TX_TONES: Byte := 0x02

  function BuildHostFrame(command: Byte, payload: Bytes): Result<Bytes, HostError> {
    if 3 + |payload| > MAX_HOST_FRAME then Err(FrameTooLong)
    else Ok([START, (3 + |payload|) as Byte, command] + payload)
  }

  function ParseHostFrame(data: Bytes, expected: Option<Byte>): Result<(Byte, Bytes), HostError> {
    if |data| < 3 || data[0] != START || data[1] < 3 || data[1] as int != |data| then Err(Malformed)
    else if expected.Some? && data[2] != expected.value then Err(Malformed)
    else Ok((data[2], data[3..]))
  }

  function TxTonesRequest(count: int, packed: Bytes): Result<Bytes, HostError> {
    if !(1 <= count <= MAX_SELECTORS) then Err(BadCount)
    else if |packed| != (count + 7) / 8 then Err(LengthMismatch)
    else BuildHostFrame(YWD_RF, [RF_TX_TONES, (count % 256) as Byte, ((count / 256) % 256) as Byte] + packed)
  }

  /** Parsing inverts building, and accepts exactly what building can produce
      with the command that was expected, if one was. */
  lemma HostFrameRoundTrip(data: Bytes, expected: Option<Byte>, command: Byte, payload: Bytes)
    ensures ParseHostFrame(data, expected) == Ok((command, payload)) <==>
              BuildHostFrame(command, payload) == Ok(data) && (expected.None? || expected.value == command)
  {
    if ParseHostFrame(data, expected) == Ok((command, payload)) {
      assert data == [data[0], data[1], data[2]] + data[3..];
    }
    if BuildHostFrame(command, payload) == Ok(data) {
      assert data[3..] == payload;
    }
  }

  /** Every prepared burst fits one host frame: start octet, its own length,
      command and subcommand, then the exact count and selectors; and it
      fits the receiver's candidate buffer. */
  lemma PreparedFits(frame: Bytes, preFlags: nat, p: Prepared)
    requires frame != [] && preFlags >= 1 && IsPreparation(frame, preFlags, p)
    ensures var r := TxTonesRequest(p.selectorCount, p.packed);
            && r.Ok? && 6 <= |r.value| <= 246
            && r.value[..4] == [0xE0, |r.value| as Byte, 0x58, 0x02]
            && r.value[4] as int + 256 * r.value[5] as int == p.selectorCount
            && UnpackSelectors(r.value[6..], p.selectorCount) == Ok(BurstSelectors(frame, preFlags))
    ensures |Stuff(BitsLsb(frame))| + 8 <= MAX_STUFFED_BITS
  {
    hide Stuff, IsPacking, BurstSelectors, TxTonesRequest, UnpackSelectors;
    BurstSelectorCount(frame, preFlags);
    var s := BurstSelectors(frame, preFlags);
    PackingRoundTrip(s, p.packed, p.packed);
    PackedLength(s, p.packed);
    TonesFit(p.selectorCount, p.packed);
  }

  lemma TonesFit(count: nat, packed: Bytes)
    requires 1 <= count <= MAX_SELECTORS && |packed| == (count + 7) / 8
    ensures var r := TxTonesRequest(count, packed);
            && r.Ok? && 6 <= |r.value| <= 246 && r.value[..4] == [0xE0, |r.value| as Byte, 0x58, 0x02]
            && r.value[4] as int + 256 * r.value[5] as int == count && r.value[6..] == packed
  {
    var r := TxTonesRequest(count, packed);
    assert r.value[6..] == packed;
  }

  lemma PackedLength(s: Selectors, packed: Bytes)
    requires IsPacking(s, packed)
    ensures |packed| == (|s| + 7) / 8
  {
  }

  /** Reception of a burst by a receiver in any state whatever: it delivers
      exactly that frame if the frame is acceptable and was within the modem's
      limit; the only exception is the one-flag preamble of TXDELAY 0 reaching a
      receiver whose previous tone was not MARK. */
  lemma BurstIsReceived(r: Receiver, ys: seq<Symbol>, frame: Bytes, preFlags: nat, period: real)
    requires Bounded(r.link) && frame != [] && preFlags >= 1 && |BurstSelectors(frame, preFlags)| <= MAX_SELECTORS
    requires SelectorsOf(ys) == BurstSelectors(frame, preFlags)
    ensures |ys| >= 8
    ensures var left := Frames(ReceiveAll(r, ys[..8], period).1);
            && |left| <= 1
            && Frames(ReceiveAll(r, ys, period).1)
               == left + (if Acceptable(frame) && (preFlags >= 2 || r.previous == Some(MARK)) then [frame] else [])
  {
    hide Stuff, BurstSelectors, ReceiveAll, Acceptable, Frames, Bounded, Synced;
    var b := Burst(frame, preFlags, POST_FLAGS, MARK);
    assert Sent(b) == BurstSelectors(frame, preFlags) by { SentIsBurst(frame, preFlags); }
    SentLength(b);
    BurstDelivered(r, ys, b, period);
  }

  /** The same for the octets that preparation produced. */
  lemma PreparedIsReceived(r: Receiver, ys: seq<Symbol>, frame: Bytes, preFlags: nat, p: Prepared, period: real)
    requires Bounded(r.link) && frame != [] && preFlags >= 1 && IsPreparation(frame, preFlags, p)
    requires UnpackSelectors(p.packed, p.selectorCount) == Ok(SelectorsOf(ys))
    ensures |ys| >= 8
    ensures var left := Frames(ReceiveAll(r, ys[..8], period).1);
            && |left| <= 1
            && Frames(ReceiveAll(r, ys, period).1)
               == left + (if Acceptable(frame) && (preFlags >= 2 || r.previous == Some(MARK)) then [frame] else [])
  {
    hide IsPacking, BurstSelectors, ReceiveAll, Acceptable, Frames, Bounded;
    PackingRoundTrip(BurstSelectors(frame, preFlags), p.packed, p.packed);
    BurstIsReceived(r, ys, frame, preFlags, period);
  }

  lemma SentIsBurst(frame: Bytes, preFlags: nat)
    requires frame != [] && preFlags >= 1
    ensures Sent(Burst(frame, preFlags, POST_FLAGS, MARK)) == BurstSelectors(frame, preFlags)
  {
  }
}
