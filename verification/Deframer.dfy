/** The receiving side of the link, per timing hypothesis: NRZI decoding, the
    flag-hunting shift register and the bounded candidate buffer.  The main
    result is that a transmitted burst comes back whatever the receiver was
    doing before. */
module Deframer {
  import opened Primitives
  import opened Fcs
  import opened Ax25
  import opened Hdlc

  const MAX_STUFFED_BITS := 4096

  /** The 8-bit shift register as its bits, oldest (most significant) first. */
  type Octet = s: Bits | |s| == 8 witness seq(8, _ => false)

  /** A candidate frame: the bits since the last flag, and the sample at which
      its data opened. */
  datatype Open = Open(bits: Bits, start: int)

  /** The shift register, how many bits it has seen (up to eight), and the open
      candidate if any. */
  datatype Link = Link(shift: Octet, count: nat, open: Option<Open>)

  datatype Found = Found(frame: Bytes, start: int, end: int)

  /** One decoded bit and the sample at which it was decided. */
  datatype Timed = Timed(bit: bool, at: int)

  /** Python's `round`: to the nearest integer, ties to the even one. */
  function Round(x: real): (n: int)
    ensures n as real - 0.5 <= x <= n as real + 0.5
    ensures x - n as real == 0.5 || n as real - x == 0.5 ==> n % 2 == 0
  {
    var f := x.Floor;
    var d := x - f as real;
    if d < 0.5 || (d == 0.5 && f % 2 == 0) then f else f + 1
  }

  /** `((shift << 1) | bit) & 0xFF`. */
  function Shifted(shift: Octet, bit: bool): Octet { shift[1..] + [bit] }

  /** The candidate after more bits arrive; one that outgrows the buffer is dropped. */
  function Buffered(open: Option<Open>, bits: Bits): Option<Open> {
    match open
    case None => None
    case Some(o) => if |o.bits| + |bits| > MAX_STUFFED_BITS then None else Some(o.(bits := o.bits + bits))
  }

  predicate Acceptable(frame: Bytes) {
    |frame| >= 17 && VerifyFcs(frame) && ParseFrame(frame, true).Ok?
  }

  /** What the bits since the last flag, closing flag included, amount to. */
  function Candidate(bits: Bits): Option<Bytes> {
    if |bits| <= 8 then None else
      match Unstuff(bits[..|bits| - 8])
      case Err(_) => None
      case Ok(payload) =>
        match BitsToBytes(payload)
        case Err(_) => None
        case Ok(frame) => if Acceptable(frame) then Some(frame) else None
  }

  /** The frame completed by a flag whose last bit fell at sample `at`. */
  function Completed(open: Option<Open>, at: int, period: real): seq<Found> {
    if open.None? then [] else
      match Candidate(open.value.bits)
      case None => []
      case Some(frame) => [Found(frame, open.value.start, Round(at as real - 7.0 * period))]
  }

  /** Effect of one decoded bit. */
  function Emit(k: Link, t: Timed, period: real): (Link, seq<Found>) {
    var shift := Shifted(k.shift, t.bit);
    var count := if k.count < 8 then k.count + 1 else k.count;
    var open := Buffered(k.open, [t.bit]);
    if count >= 8 && shift == Flag()
    then (Link(shift, count, Some(Open([], Round(t.at as real + period)))), Completed(open, t.at, period))
    else (Link(shift, count, open), [])
  }

  function EmitAll(k: Link, ts: seq<Timed>, period: real): (Link, seq<Found>)
    decreases |ts|
  {
    if ts == [] then (k, []) else
      var (k1, first) := Emit(k, ts[0], period);
      var (k2, rest) := EmitAll(k1, ts[1..], period);
      (k2, first + rest)
  }

  lemma {:induction false} EmitAllConcat(k: Link, a: seq<Timed>, b: seq<Timed>, period: real)
    ensures var (k1, f1) := EmitAll(k, a, period);
            var (k2, f2) := EmitAll(k1, b, period);
            EmitAll(k, a + b, period) == (k2, f1 + f2)
    decreases |a|
  {
    hide Emit;
    if a == [] {
      assert a + b == b;
      assert [] + EmitAll(k, b, period).1 == EmitAll(k, b, period).1;
    } else {
      assert (a + b)[1..] == a[1..] + b;
      var (k0, first) := Emit(k, a[0], period);
      EmitAllConcat(k0, a[1..], b, period);
      var (k1, f1) := EmitAll(k0, a[1..], period);
      var f2 := EmitAll(k1, b, period).1;
      assert first + (f1 + f2) == (first + f1) + f2;
    }
  }

  // ---- Imperative form of the per-bit methods

  method FinishFlag(open: Option<Open>, at: int, period: real) returns (next: Open, found: seq<Found>)
    ensures found == Completed(open, at, period)
    ensures next == Open([], Round(at as real + period))
  {
    hide Unstuff, BitsToBytes, VerifyFcs, ParseFrame, Round;
    found := [];
    if open.Some? {
      var after := open.value.bits;
      var stuffed := if |after| >= 8 then after[..|after| - 8] else [];
      if stuffed != [] {
        var payload := UnstuffBits(stuffed);
        assert stuffed == after[..|after| - 8];
        var frame: Bytes := [];
        if payload.Ok? {
          var octets := BitsToBytesLsb(payload.value);
          if octets.Ok? {
            frame := octets.value;
          }
        }
        if |frame| >= 17 && VerifyFcs(frame) {
          if ParseFrame(frame, true).Ok? {
            found := [Found(frame, open.value.start, Round(at as real - 7.0 * period))];
          }
        }
      }
    }
    next := Open([], Round(at as real + period));
  }

  method EmitBit(k: Link, bit: bool, at: int, period: real) returns (next: Link, found: seq<Found>)
    ensures (next, found) == Emit(k, Timed(bit, at), period)
  {
    next := k.(shift := Shifted(k.shift, bit));
    if next.count < 8 {
      next := next.(count := next.count + 1);
    }
    if next.open.Some? {
      var after := next.open.value.bits + [bit];
      next := next.(open := if |after| > MAX_STUFFED_BITS then None else Some(Open(after, next.open.value.start)));
    }
    found := [];
    if next.count >= 8 && next.shift == Flag() {
      var reopened: Open;
      reopened, found := FinishFlag(next.open, at, period);
      next := next.(open := Some(reopened));
    }
  }

  // ---- Bits that complete no flag

  function BitsOf(ts: seq<Timed>): (bits: Bits)
    ensures |bits| == |ts|
  {
    seq(|ts|, i requires 0 <= i < |ts| => ts[i].bit)
  }

  function ShiftedAll(shift: Octet, bits: Bits): Octet
    decreases |bits|
  {
    if bits == [] then shift else ShiftedAll(Shifted(shift, bits[0]), bits[1..])
  }

  /** No bit of `bits` completes a flag when the register starts at `shift`. */
  predicate NoFlag(shift: Octet, bits: Bits)
    decreases |bits|
  {
    bits == [] || (Shifted(shift, bits[0]) != Flag() && NoFlag(Shifted(shift, bits[0]), bits[1..]))
  }

  lemma BufferedTwice(open: Option<Open>, a: Bits, b: Bits)
    ensures Buffered(Buffered(open, a), b) == Buffered(open, a + b)
  {
    if open.Some? {
      assert open.value.bits + a + b == open.value.bits + (a + b);
    }
  }

  lemma {:induction false} QuietBits(k: Link, ts: seq<Timed>, period: real)
    requires NoFlag(k.shift, BitsOf(ts))
    requires k.open.Some? ==> |k.open.value.bits| <= MAX_STUFFED_BITS
    ensures var (k', found) := EmitAll(k, ts, period);
            && found == []
            && k'.open == Buffered(k.open, BitsOf(ts))
            && k'.shift == ShiftedAll(k.shift, BitsOf(ts))
            && k'.count == (if k.count + |ts| <= 8 then k.count + |ts| else if k.count <= 8 then 8 else k.count)
    decreases |ts|
  {
    hide Completed, Shifted;
    var bits := BitsOf(ts);
    if ts != [] {
      assert bits[1..] == BitsOf(ts[1..]);
      assert bits == [ts[0].bit] + bits[1..];
      BufferedTwice(k.open, [ts[0].bit], bits[1..]);
      QuietBits(Emit(k, ts[0], period).0, ts[1..], period);
    } else if k.open.Some? {
      assert k.open.value.bits + [] == k.open.value.bits;
    }
  }

  // ---- Runs of ones in the shift register

  /** The register ends in a zero followed by exactly `t` ones. */
  predicate Trail(shift: Octet, t: nat)
    requires t <= 6
  {
    !shift[7 - t] && forall i :: 8 - t <= i < 8 ==> shift[i]
  }

  lemma ShiftZero(shift: Octet)
    ensures Trail(Shifted(shift, false), 0)
    ensures Shifted(shift, false) == Flag() <==> Trail(shift, 6)
  {
    var next := Shifted(shift, false);
    assert forall i :: 0 <= i < 7 ==> next[i] == shift[i + 1];
    if Trail(shift, 6) {
      assert next == Flag();
    }
    if next == Flag() {
      assert forall i :: 1 <= i < 8 ==> shift[i] == Flag()[i - 1];
    }
  }

  lemma ShiftOne(shift: Octet, t: nat)
    requires t < 6
    ensures Shifted(shift, true) != Flag()
    ensures Trail(shift, t) ==> Trail(Shifted(shift, true), t + 1)
  {
    assert Shifted(shift, true)[7];
  }

  lemma TrailIsExact(shift: Octet, t: nat)
    requires t < 6
    ensures Trail(shift, t) ==> !Trail(shift, 6)
  {
  }

  /** A stuffed body completes no flag and cannot be continued into one by a
      zero bit. */
  lemma {:induction false} StuffedBodyIsQuiet(shift: Octet, ones: nat, bits: Bits)
    requires ones < 5 && Trail(shift, ones)
    ensures NoFlag(shift, StuffFrom(ones, bits))
    ensures !Trail(ShiftedAll(shift, StuffFrom(ones, bits)), 6)
    decreases |bits|
  {
    hide Trail, Shifted;
    var s := StuffFrom(ones, bits);
    TrailIsExact(shift, ones);
    if bits != [] {
      if !bits[0] {
        ShiftZero(shift);
        assert s[1..] == StuffFrom(0, bits[1..]);
        StuffedBodyIsQuiet(Shifted(shift, false), 0, bits[1..]);
      } else {
        ShiftOne(shift, ones);
        var next := Shifted(shift, true);
        if ones < 4 {
          assert s[1..] == StuffFrom(ones + 1, bits[1..]);
          StuffedBodyIsQuiet(next, ones + 1, bits[1..]);
        } else {
          TrailIsExact(next, 5);
          ShiftZero(next);
          assert s[1..][0] == false && s[1..][1..] == StuffFrom(0, bits[1..]);
          StuffedBodyIsQuiet(Shifted(next, false), 0, bits[1..]);
        }
      }
    }
  }

  /** Six ones after a zero leave the register one zero short of a flag. */
  lemma SixOnes(shift: Octet)
    requires Trail(shift, 0)
    ensures var six := [true, true, true, true, true, true];
            NoFlag(shift, six) && Trail(ShiftedAll(shift, six), 6)
  {
    hide Trail, Shifted;
    var s1 := Shifted(shift, true);
    var s2 := Shifted(s1, true);
    var s3 := Shifted(s2, true);
    var s4 := Shifted(s3, true);
    var s5 := Shifted(s4, true);
    var s6 := Shifted(s5, true);
    ShiftOne(shift, 0);
    ShiftOne(s1, 1);
    ShiftOne(s2, 2);
    ShiftOne(s3, 3);
    ShiftOne(s4, 4);
    ShiftOne(s5, 5);
    OnesUnfold(shift, s1, 6);
    OnesUnfold(s1, s2, 5);
    OnesUnfold(s2, s3, 4);
    OnesUnfold(s3, s4, 3);
    OnesUnfold(s4, s5, 2);
    OnesUnfold(s5, s6, 1);
    assert [true, true, true, true, true, true] == Ones(6);
  }

  function Ones(n: nat): Bits { seq(n, _ => true) }

  lemma OnesUnfold(shift: Octet, next: Octet, n: nat)
    requires n > 0 && next == Shifted(shift, true)
    ensures NoFlag(shift, Ones(n)) <==> next != Flag() && NoFlag(next, Ones(n - 1))
    ensures ShiftedAll(shift, Ones(n)) == ShiftedAll(next, Ones(n - 1))
  {
    assert Ones(n)[1..] == Ones(n - 1);
  }

  // ---- Flags

  /** What every reachable state satisfies: the candidate fits the buffer. */
  predicate Bounded(k: Link) { k.open.Some? ==> |k.open.value.bits| <= MAX_STUFFED_BITS }

  lemma EmitKeepsBounded(k: Link, t: Timed, period: real)
    requires Bounded(k)
    ensures Bounded(Emit(k, t, period).0)
  {
    hide Shifted, Round, Completed;
  }

  /** A flag has just ended. */
  predicate Synced(k: Link) { k.shift == Flag() && k.count >= 8 && k.open.Some? && k.open.value.bits == [] }

  lemma SyncedHasNoTrail(k: Link)
    requires Synced(k)
    ensures !Trail(k.shift, 6) && Trail(k.shift, 0) && Bounded(k)
  {
  }

  /** The frames that the current candidate yields if `bits`, ending in a flag, follow. */
  function Closed(open: Option<Open>, bits: Bits): seq<Bytes> {
    match Buffered(open, bits)
    case None => []
    case Some(o) => match Candidate(o.bits)
                    case None => []
                    case Some(frame) => [frame]
  }

  function Frames(found: seq<Found>): (frames: seq<Bytes>)
    ensures |frames| == |found|
  {
    seq(|found|, i requires 0 <= i < |found| => found[i].frame)
  }

  lemma FlagPrefixIsQuiet(shift: Octet)
    requires !Trail(shift, 6)
    ensures NoFlag(shift, Flag()[..7]) && Trail(ShiftedAll(shift, Flag()[..7]), 6)
  {
    hide Trail, Shifted;
    var zero := Shifted(shift, false);
    ShiftZero(shift);
    SixOnes(zero);
    assert Flag()[..7][1..] == [true, true, true, true, true, true];
  }

  /** Bits that complete no flag, followed by a flag that is not the tail of a
      longer run, close the candidate once and leave the receiver in step. */
  lemma BodyThenFlag(k: Link, ts: seq<Timed>, body: Bits, period: real)
    requires Bounded(k) && BitsOf(ts) == body + Flag()
    requires NoFlag(k.shift, body) && !Trail(ShiftedAll(k.shift, body), 6)
    ensures var (k', found) := EmitAll(k, ts, period);
            Synced(k') && Frames(found) == Closed(k.open, body + Flag())
  {
    hide Trail, Shifted, Candidate, NoFlag, ShiftedAll, EmitAll;
    var n := |body|;
    var a, b, last := ts[..n], ts[n..n + 7], ts[n + 7];
    assert ts == a + (b + [last]);
    assert BitsOf(a) == body by {
      forall i | 0 <= i < n ensures a[i].bit == body[i] { assert BitsOf(ts)[i] == ts[i].bit; }
    }
    assert BitsOf(b) == Flag()[..7] by {
      forall i | 0 <= i < 7 ensures b[i].bit == Flag()[i] { assert BitsOf(ts)[n + i] == ts[n + i].bit; }
    }
    assert last.bit == false by { assert BitsOf(ts)[n + 7] == last.bit; }
    QuietBits(k, a, period);
    var k1 := EmitAll(k, a, period).0;
    FlagPrefixIsQuiet(k1.shift);
    QuietBits(k1, b, period);
    var k2 := EmitAll(k1, b, period).0;
    EmitAllConcat(k, a, b + [last], period);
    EmitAllConcat(k1, b, [last], period);
    LastFlagBit(k2, last, period);
    BufferedTwice(k.open, body, Flag()[..7]);
    BufferedTwice(k.open, body + Flag()[..7], [false]);
    assert body + Flag()[..7] + [false] == body + Flag();
  }

  lemma LastFlagBit(k: Link, t: Timed, period: real)
    requires Trail(k.shift, 6) && k.count >= 7 && !t.bit
    ensures var (k', found) := EmitAll(k, [t], period);
            Synced(k') && Frames(found) == Closed(k.open, [false])
  {
    hide Trail, Shifted, Candidate;
    ShiftZero(k.shift);
    var (k', found) := Emit(k, t, period);
    assert EmitAll(k', [t][1..], period) == (k', []);
    assert found + [] == found;
  }

  /** From any state a complete flag brings the receiver into step, and at most
      one candidate left over from before is delivered on the way. */
  lemma AnyStateFlag(k: Link, ts: seq<Timed>, period: real)
    requires Bounded(k) && BitsOf(ts) == Flag()
    ensures var (k', found) := EmitAll(k, ts, period);
            Synced(k') && |found| <= 1 && (Synced(k) ==> found == [])
  {
    hide Trail, Shifted, NoFlag, ShiftedAll, Candidate, BitsOf;
    FlagParts(ts);
    var (k1, f1) := Emit(k, ts[0], period);
    var six, last := ts[1..7], ts[7];
    ShiftZero(k.shift);
    if Synced(k) { SyncedHasNoTrail(k); }
    SixOnes(k1.shift);
    QuietBits(k1, six, period);
    var k2 := EmitAll(k1, six, period).0;
    LastFlagBit(k2, last, period);
    assert ts[1..] == six + [last];
    EmitAllConcat(k1, six, [last], period);
    ShortCandidate(k2.open, [false]);
  }

  lemma FlagParts(ts: seq<Timed>)
    requires BitsOf(ts) == Flag()
    ensures |ts| == 8 && !ts[0].bit && !ts[7].bit && BitsOf(ts[1..7]) == [true, true, true, true, true, true]
  {
    forall i | 0 <= i < 8 ensures ts[i].bit == Flag()[i] { assert BitsOf(ts)[i] == ts[i].bit; }
  }

  lemma ShortCandidate(open: Option<Open>, bits: Bits)
    ensures |Closed(open, bits)| <= 1
    ensures open.Some? && |open.value.bits| + |bits| <= 8 ==> Closed(open, bits) == []
  {
    hide Unstuff, BitsToBytes, Acceptable;
  }

  lemma {:induction false} MoreFlags(k: Link, ts: seq<Timed>, n: nat, period: real)
    requires Synced(k) && BitsOf(ts) == Flags(n)
    ensures var (k', found) := EmitAll(k, ts, period); Synced(k') && found == []
    decreases n
  {
    hide BitsOf, Synced;
    if n > 0 {
      assert Bounded(k) by { SyncedHasNoTrail(k); }
      EmitSplit(k, ts, Flag(), Flags(n - 1), period);
      AnyStateFlag(k, ts[..8], period);
      MoreFlags(EmitAll(k, ts[..8], period).0, ts[8..], n - 1, period);
    } else {
      assert |BitsOf(ts)| == 0;
    }
  }

  lemma BitsOfConcat(a: seq<Timed>, b: seq<Timed>)
    ensures BitsOf(a + b) == BitsOf(a) + BitsOf(b)
    ensures BitsOf(a + b)[..|a|] == BitsOf(a) && BitsOf(a + b)[|a|..] == BitsOf(b)
  {
  }

  /** Feeding timed bits that spell `x` and then `y` is feeding the two parts. */
  lemma EmitSplit(k: Link, ts: seq<Timed>, x: Bits, y: Bits, period: real)
    requires BitsOf(ts) == x + y
    ensures |ts| == |x| + |y| && BitsOf(ts[..|x|]) == x && BitsOf(ts[|x|..]) == y
    ensures var (k1, f1) := EmitAll(k, ts[..|x|], period);
            var (k2, f2) := EmitAll(k1, ts[|x|..], period);
            EmitAll(k, ts, period) == (k2, f1 + f2)
            && Frames(f1 + f2) == Frames(f1) + Frames(f2)
  {
    hide EmitAll;
    var a, b := ts[..|x|], ts[|x|..];
    assert ts == a + b;
    BitsOfConcat(a, b);
    EmitAllConcat(k, a, b, period);
  }

  // ---- A first flag whose first bit was decoded wrongly

  /** A flag whose leading zero was decoded as a one. */
  function LostFlag(): Bits { [true, true, true, true, true, true, true, false] }

  lemma LostFlagIsQuiet(shift: Octet)
    ensures NoFlag(shift, LostFlag()) && Trail(ShiftedAll(shift, LostFlag()), 0)
  {
    hide NoFlag, ShiftedAll, Trail;
    var s1, s2 := Shifted(shift, true), Shifted(Shifted(shift, true), true);
    var s3, s4 := Shifted(s2, true), Shifted(Shifted(s2, true), true);
    var s5, s6 := Shifted(s4, true), Shifted(Shifted(s4, true), true);
    var s7 := Shifted(s6, true);
    var s8 := Shifted(s7, false);
    assert s1[7] && s2[7] && s3[7] && s4[7] && s5[7] && s6[7] && s7[7];
    assert s8[0] == s7[1] == s6[2] == s5[3] == s4[4] == s3[5] == s2[6] == s1[7];
    ShiftZero(s7);
    LostUnfold(shift, s1, 7);
    LostUnfold(s1, s2, 6);
    LostUnfold(s2, s3, 5);
    LostUnfold(s3, s4, 4);
    LostUnfold(s4, s5, 3);
    LostUnfold(s5, s6, 2);
    LostUnfold(s6, s7, 1);
    LostEnds(s7, s8);
    assert LostFlag() == Ones(7) + [false];
  }

  lemma LostUnfold(shift: Octet, next: Octet, n: nat)
    requires n > 0 && next == Shifted(shift, true)
    ensures NoFlag(shift, Ones(n) + [false]) <==> next != Flag() && NoFlag(next, Ones(n - 1) + [false])
    ensures ShiftedAll(shift, Ones(n) + [false]) == ShiftedAll(next, Ones(n - 1) + [false])
  {
    hide Shifted;
    assert (Ones(n) + [false])[1..] == Ones(n - 1) + [false];
  }

  lemma LostEnds(shift: Octet, next: Octet)
    requires next == Shifted(shift, false)
    ensures NoFlag(shift, Ones(0) + [false]) <==> next != Flag()
    ensures ShiftedAll(shift, Ones(0) + [false]) == next
  {
    hide Shifted;
    assert Ones(0) + [false] == [false] && [false][1..] == [];
  }

  /** No candidate that contains a lost flag is ever delivered. */
  lemma LostFlagPoisons(open: Option<Open>, body: Bits)
    ensures Closed(open, LostFlag() + body + Flag()) == []
  {
    hide Unstuff, Stuff, BitsToBytes, Acceptable;
    if open.Some? {
      var bits := open.value.bits + (LostFlag() + body + Flag());
      var stuffed := bits[..|bits| - 8];
      assert stuffed == open.value.bits + LostFlag() + body;
      assert SixOnesAt(stuffed, |open.value.bits|);
      var r := Unstuff(stuffed);
      if r.Ok? {
        StuffingIsABijection(stuffed, r.value);
        NoSixOnes(r.value, |open.value.bits|);
      }
    }
  }

  lemma NoSixOnes(bits: Bits, i: nat)
    ensures !SixOnesAt(Stuff(bits), i)
  {
    StuffedRunsAreShort(0, bits);
  }

  // ---- One burst

  /** What a receiver in step delivers for a transmitted frame: the frame,
      exactly when it is acceptable and its stuffed form with the closing flag
      fits the candidate buffer. */
  function Delivered(frame: Bytes): seq<Bytes> {
    if |Stuff(BitsLsb(frame))| + 8 <= MAX_STUFFED_BITS && Acceptable(frame) then [frame] else []
  }

  lemma ClosedBody(open: Option<Open>, frame: Bytes)
    requires open.Some? && open.value.bits == [] && frame != []
    ensures Closed(open, Stuff(BitsLsb(frame)) + Flag()) == Delivered(frame)
  {
    hide Unstuff, Stuff, BitsToBytes, Acceptable;
    var payload := BitsLsb(frame);
    var body := Stuff(payload);
    assert [] + (body + Flag()) == body + Flag();
    assert (body + Flag())[..|body|] == body;
    StuffingIsABijection(body, payload);
    OctetsRoundTrip(payload, frame);
    assert body != [] by { StuffNonEmpty(payload); }
  }

  lemma StuffNonEmpty(bits: Bits)
    requires bits != []
    ensures Stuff(bits) != []
  {
  }

  /** A stuffed body, its closing flag and the flags after it. */
  lemma BodyThenFlags(k: Link, ts: seq<Timed>, frame: Bytes, post: nat, prefix: Bits, period: real)
    requires Bounded(k) && post >= 1
    requires BitsOf(ts) == prefix + Stuff(BitsLsb(frame)) + Flags(post)
    requires NoFlag(k.shift, prefix) && Trail(ShiftedAll(k.shift, prefix), 0)
    ensures var (k', found) := EmitAll(k, ts, period);
            Synced(k') && Frames(found) == Closed(k.open, prefix + Stuff(BitsLsb(frame)) + Flag())
  {
    hide BitsOf, EmitAll, Synced, NoFlag, ShiftedAll, Trail, Stuff, Closed, Frames, Flags;
    var body := prefix + Stuff(BitsLsb(frame));
    var n := |body + Flag()|;
    FlagsAfter(body, post);
    EmitSplit(k, ts, body + Flag(), Flags(post - 1), period);
    StuffedAfterPrefix(k.shift, prefix, BitsLsb(frame));
    BodyThenFlag(k, ts[..n], body, period);
    var (k1, f1) := EmitAll(k, ts[..n], period);
    MoreFlags(k1, ts[n..], post - 1, period);
    assert f1 + [] == f1;
  }

  lemma FlagsAfter(body: Bits, n: nat)
    requires n > 0
    ensures body + Flags(n) == (body + Flag()) + Flags(n - 1)
  {
  }

  lemma StuffedAfterPrefix(shift: Octet, prefix: Bits, bits: Bits)
    requires NoFlag(shift, prefix) && Trail(ShiftedAll(shift, prefix), 0)
    ensures NoFlag(shift, prefix + Stuff(bits)) && !Trail(ShiftedAll(shift, prefix + Stuff(bits)), 6)
  {
    hide Trail, Shifted, NoFlag, ShiftedAll;
    StuffedBodyIsQuiet(ShiftedAll(shift, prefix), 0, bits);
    QuietConcat(shift, prefix, Stuff(bits));
  }

  lemma {:induction false} QuietConcat(shift: Octet, a: Bits, b: Bits)
    ensures NoFlag(shift, a + b) <==> NoFlag(shift, a) && NoFlag(ShiftedAll(shift, a), b)
    ensures ShiftedAll(shift, a + b) == ShiftedAll(ShiftedAll(shift, a), b)
    decreases |a|
  {
    hide Shifted;
    if a == [] {
      assert a + b == b;
    } else {
      assert (a + b)[1..] == a[1..] + b;
      QuietConcat(Shifted(shift, a[0]), a[1..], b);
    }
  }

  /** The bits of one burst, entering from any state with its first flag
      intact, or with that flag lost. */
  lemma BurstBits(k: Link, ts: seq<Timed>, lost: bool, frame: Bytes, pre: nat, post: nat, period: real)
    requires Bounded(k) && frame != [] && pre >= 1 && post >= 1
    requires BitsOf(ts) == [lost] + (Flags(pre) + Stuff(BitsLsb(frame)) + Flags(post))[1..]
    ensures var (k', found) := EmitAll(k, ts, period);
            var left := EmitAll(k, ts[..8], period).1;
            && Synced(k')
            && |left| <= 1 && (Synced(k) || lost ==> left == [])
            && Frames(found) == Frames(left) + (if lost && pre == 1 then [] else Delivered(frame))
  {
    hide BitsOf, EmitAll, NoFlag, ShiftedAll, Trail, Stuff, Closed, Synced, Delivered, Frames, Flags, Flag,
         LostFlag, BitsLsb;
    BurstSpelling(lost, pre, Stuff(BitsLsb(frame)), Flags(post));
    if lost {
      LostFirstFlag(k, ts, frame, pre, post, period);
    } else {
      FirstFlagIntact(k, ts, frame, pre, post, period);
    }
  }

  lemma FirstFlagIntact(k: Link, ts: seq<Timed>, frame: Bytes, pre: nat, post: nat, period: real)
    requires Bounded(k) && frame != [] && pre >= 1 && post >= 1
    requires BitsOf(ts) == Flag() + (Flags(pre - 1) + Stuff(BitsLsb(frame)) + Flags(post))
    ensures var (k', found) := EmitAll(k, ts, period);
            var left := EmitAll(k, ts[..8], period).1;
            Synced(k') && |left| <= 1 && (Synced(k) ==> left == []) && Frames(found) == Frames(left) + Delivered(frame)
  {
    hide BitsOf, EmitAll, Stuff, Synced, Delivered, Frames, Flags, BitsLsb;
    EmitSplit(k, ts, Flag(), Flags(pre - 1) + Stuff(BitsLsb(frame)) + Flags(post), period);
    AnyStateFlag(k, ts[..8], period);
    InStep(EmitAll(k, ts[..8], period).0, ts[8..], frame, pre - 1, post, period);
  }

  lemma LostFirstFlag(k: Link, ts: seq<Timed>, frame: Bytes, pre: nat, post: nat, period: real)
    requires Bounded(k) && frame != [] && pre >= 1 && post >= 1
    requires BitsOf(ts) == LostFlag() + (Flags(pre - 1) + Stuff(BitsLsb(frame)) + Flags(post))
    ensures var (k', found) := EmitAll(k, ts, period);
            && Synced(k') && EmitAll(k, ts[..8], period).1 == []
            && Frames(found) == Frames([]) + (if pre == 1 then [] else Delivered(frame))
  {
    hide BitsOf, EmitAll, NoFlag, ShiftedAll, Trail, Stuff, Closed, Synced, Delivered, Flags, BitsLsb;
    EmitSplit(k, ts, LostFlag(), Flags(pre - 1) + Stuff(BitsLsb(frame)) + Flags(post), period);
    LostFlagIsQuiet(k.shift);
    QuietBits(k, ts[..8], period);
    if pre == 1 {
      LoneSpelling(Stuff(BitsLsb(frame)), Flags(post));
      BodyThenFlags(k, ts, frame, post, LostFlag(), period);
      LostFlagPoisons(k.open, Stuff(BitsLsb(frame)));
    } else {
      SecondFlag(k, ts, frame, pre, post, period);
    }
  }

  lemma LoneSpelling(body: Bits, tail: Bits)
    ensures LostFlag() + (Flags(0) + body + tail) == LostFlag() + body + tail
  {
    assert Flags(0) == [];
  }

  lemma BurstSpelling(lost: bool, pre: nat, body: Bits, tail: Bits)
    requires pre >= 1
    ensures [lost] + (Flags(pre) + body + tail)[1..]
         == (if lost then LostFlag() else Flag()) + (Flags(pre - 1) + body + tail)
  {
    var whole := Flags(pre) + body + tail;
    assert whole == Flag() + (Flags(pre - 1) + body + tail);
    assert whole[1..] == Flag()[1..] + (Flags(pre - 1) + body + tail);
    assert [lost] + Flag()[1..] == if lost then LostFlag() else Flag();
  }

  /** In step: the remaining opening flags, the body and the closing flags. */
  lemma InStep(k: Link, ts: seq<Timed>, frame: Bytes, pre: nat, post: nat, period: real)
    requires Synced(k) && frame != [] && post >= 1
    requires BitsOf(ts) == Flags(pre) + Stuff(BitsLsb(frame)) + Flags(post)
    ensures var (k', found) := EmitAll(k, ts, period); Synced(k') && Frames(found) == Delivered(frame)
  {
    hide BitsOf, EmitAll, Synced, Trail, Stuff, Closed, Delivered, Frames, ShiftedAll, NoFlag;
    var body := Stuff(BitsLsb(frame));
    var n := |Flags(pre)|;
    assert Flags(pre) + body + Flags(post) == Flags(pre) + ([] + body + Flags(post));
    EmitSplit(k, ts, Flags(pre), [] + body + Flags(post), period);
    MoreFlags(k, ts[..n], pre, period);
    InStepBody(EmitAll(k, ts[..n], period).0, ts[n..], frame, post, period);
  }

  lemma NoPrefix(shift: Octet)
    ensures NoFlag(shift, []) && ShiftedAll(shift, []) == shift
  {
  }

  lemma InStepBody(k: Link, ts: seq<Timed>, frame: Bytes, post: nat, period: real)
    requires Synced(k) && frame != [] && post >= 1
    requires BitsOf(ts) == [] + Stuff(BitsLsb(frame)) + Flags(post)
    ensures var (k', found) := EmitAll(k, ts, period); Synced(k') && Frames(found) == Delivered(frame)
  {
    hide BitsOf, EmitAll, Trail, Stuff, Closed, Delivered, Frames, Flags, Flag, BitsLsb, Bounded;
    SyncedHasNoTrail(k);
    NoPrefix(k.shift);
    BodyThenFlags(k, ts, frame, post, [], period);
    ClosedBody(k.open, frame);
    assert [] + Stuff(BitsLsb(frame)) == Stuff(BitsLsb(frame));
  }

  /** After a lost first flag the second one brings the receiver into step. */
  lemma SecondFlag(k: Link, ts: seq<Timed>, frame: Bytes, pre: nat, post: nat, period: real)
    requires Bounded(k) && frame != [] && pre >= 2 && post >= 1
    requires BitsOf(ts) == LostFlag() + (Flags(pre - 1) + Stuff(BitsLsb(frame)) + Flags(post))
    ensures var (k', found) := EmitAll(k, ts, period); Synced(k') && Frames(found) == Delivered(frame)
  {
    hide BitsOf, EmitAll, NoFlag, ShiftedAll, Trail, Stuff, Closed, Synced, Delivered, Frames, Flags;
    var rest := Flags(pre - 2) + Stuff(BitsLsb(frame)) + Flags(post);
    var opening := LostFlag() + Flag();
    SecondSpelling(pre, Stuff(BitsLsb(frame)), Flags(post));
    EmitSplit(k, ts, opening, rest, period);
    LostFlagIsQuiet(k.shift);
    TrailIsExact(ShiftedAll(k.shift, LostFlag()), 0);
    BodyThenFlag(k, ts[..16], LostFlag(), period);
    LostFlagPoisons(k.open, []);
    assert LostFlag() + [] + Flag() == opening;
    InStep(EmitAll(k, ts[..16], period).0, ts[16..], frame, pre - 2, post, period);
  }

  lemma SecondSpelling(pre: nat, body: Bits, tail: Bits)
    requires pre >= 2
    ensures LostFlag() + (Flags(pre - 1) + body + tail) == (LostFlag() + Flag()) + (Flags(pre - 2) + body + tail)
  {
    assert Flags(pre - 1) == Flag() + Flags(pre - 2);
  }

  // ---- NRZI reception of tone selectors

  datatype Symbol = Symbol(selector: bool, at: int)

  datatype Receiver = Receiver(previous: Option<bool>, link: Link)

  /** A receiver that has seen nothing. */
  function NewReceiver(): Receiver {
    Receiver(None, Link([false, false, false, false, false, false, false, false], 0, None))
  }

  function NrziBit(previous: Option<bool>, selector: bool): bool {
    previous.None? || previous.value == selector
  }

  function Receive(r: Receiver, y: Symbol, period: real): (Receiver, seq<Found>) {
    var (k, found) := Emit(r.link, Timed(NrziBit(r.previous, y.selector), y.at), period);
    (Receiver(Some(y.selector), k), found)
  }

  function ReceiveAll(r: Receiver, ys: seq<Symbol>, period: real): (Receiver, seq<Found>)
    decreases |ys|
  {
    if ys == [] then (r, []) else
      var (r1, first) := Receive(r, ys[0], period);
      var (r2, rest) := ReceiveAll(r1, ys[1..], period);
      (r2, first + rest)
  }

  lemma {:induction false} ReceiveAllConcat(r: Receiver, a: seq<Symbol>, b: seq<Symbol>, period: real)
    ensures var (r1, f1) := ReceiveAll(r, a, period);
            var (r2, f2) := ReceiveAll(r1, b, period);
            ReceiveAll(r, a + b, period) == (r2, f1 + f2)
    decreases |a|
  {
    hide Receive;
    if a == [] {
      assert a + b == b;
      assert [] + ReceiveAll(r, b, period).1 == ReceiveAll(r, b, period).1;
    } else {
      assert (a + b)[1..] == a[1..] + b;
      var (r0, first) := Receive(r, a[0], period);
      ReceiveAllConcat(r0, a[1..], b, period);
      var (r1, f1) := ReceiveAll(r0, a[1..], period);
      var f2 := ReceiveAll(r1, b, period).1;
      assert first + (f1 + f2) == (first + f1) + f2;
    }
  }

  /** So every state a receiver reaches satisfies `Bounded`, and its previous
      tone is that of its last symbol. */
  lemma {:induction false} ReceiveAllKeepsBounded(r: Receiver, ys: seq<Symbol>, period: real)
    requires Bounded(r.link)
    ensures var r' := ReceiveAll(r, ys, period).0;
            Bounded(r'.link) && (ys != [] ==> r'.previous == Some(ys[|ys| - 1].selector))
    decreases |ys|
  {
    hide Emit, Bounded;
    if ys != [] {
      EmitKeepsBounded(r.link, Timed(NrziBit(r.previous, ys[0].selector), ys[0].at), period);
      ReceiveAllKeepsBounded(Receive(r, ys[0], period).0, ys[1..], period);
    }
  }

  /** Whatever is found anywhere satisfies the acceptance test. */
  lemma {:induction false} ReceiveAllFindsAcceptable(r: Receiver, ys: seq<Symbol>, period: real)
    ensures forall f <- ReceiveAll(r, ys, period).1 :: Acceptable(f.frame)
    decreases |ys|
  {
    hide Emit, Acceptable;
    if ys != [] {
      EmitFindsAcceptable(r.link, Timed(NrziBit(r.previous, ys[0].selector), ys[0].at), period);
      ReceiveAllFindsAcceptable(Receive(r, ys[0], period).0, ys[1..], period);
    }
  }

  lemma EmitFindsAcceptable(k: Link, t: Timed, period: real)
    ensures forall f <- Emit(k, t, period).1 :: Acceptable(f.frame)
  {
    hide Acceptable, Unstuff, BitsToBytes, Round, Shifted;
  }

  // ---- When a candidate opened

  /** The sample at which data opens if a flag ends with this symbol. */
  function OpeningAfter(y: Symbol, period: real): int { Round(y.at as real + period) }

  predicate OpensAmong(start: int, ys: seq<Symbol>, period: real) {
    exists i :: 0 <= i < |ys| && start == OpeningAfter(ys[i], period)
  }

  /** The receiver with its candidate dropped. */
  function Forgetting(r: Receiver): Receiver { r.(link := r.link.(open := None)) }

  /** Dropping the candidate loses what it would have completed, nothing else. */
  lemma {:induction false} ForgettingFindsTail(r: Receiver, ys: seq<Symbol>, period: real)
    ensures var found, tail := ReceiveAll(r, ys, period).1, ReceiveAll(Forgetting(r), ys, period).1;
            |tail| <= |found| && found[|found| - |tail|..] == tail
    decreases |ys|
  {
    hide Candidate, Shifted, Round;
    if ys != [] {
      var (r1, first) := Receive(r, ys[0], period);
      var (f1, lost) := Receive(Forgetting(r), ys[0], period);
      assert lost == [] && (f1 == r1 || f1 == Forgetting(r1));
      ForgettingFindsTail(r1, ys[1..], period);
    }
  }

  /** What a receiver without a candidate finds opens after one of the symbols
      it is given. */
  lemma {:induction false} OpensAfresh(r: Receiver, ys: seq<Symbol>, period: real)
    ensures forall x <- ReceiveAll(r, ys, period).1 ::
              OpensAmong(x.start, ys, period) || (r.link.open.Some? && x.start == r.link.open.value.start)
    decreases |ys|
  {
    hide Candidate, Shifted, OpensAmong;
    if ys != [] {
      var (r1, first) := Receive(r, ys[0], period);
      OpensAfresh(r1, ys[1..], period);
      forall x <- ReceiveAll(r, ys, period).1
        ensures OpensAmong(x.start, ys, period) || (r.link.open.Some? && x.start == r.link.open.value.start)
      {
        if OpensAmong(x.start, ys[1..], period) {
          OpensAmongMore(x.start, ys, period);
        } else if r1.link.open.Some? && r1.link.open.value.start == OpeningAfter(ys[0], period) {
          OpensAmongFirst(ys, period);
        }
      }
    }
  }

  lemma OpensAmongMore(start: int, ys: seq<Symbol>, period: real)
    requires ys != [] && OpensAmong(start, ys[1..], period)
    ensures OpensAmong(start, ys, period)
  {
    hide OpeningAfter;
    var i :| 0 <= i < |ys[1..]| && start == OpeningAfter(ys[1..][i], period);
    assert ys[i + 1] == ys[1..][i];
  }

  lemma OpensAmongFirst(ys: seq<Symbol>, period: real)
    requires ys != []
    ensures OpensAmong(OpeningAfter(ys[0], period), ys, period)
  {
  }

  // ---- Where a found frame lies

  /** A frame lies between two flags: it opens after the first, `ys[i]` being
      that flag's last symbol, closes where the second, ending with `ys[l]`,
      begins, and its stuffed bits and the second flag fill the symbols between. */
  ghost predicate Spans(x: Found, ys: seq<Symbol>, period: real, i: int, l: int) {
    && 0 <= i < l < |ys| && l - i == |Stuff(BitsLsb(x.frame))| + 8
    && x.start == OpeningAfter(ys[i], period) && x.end == Round(ys[l].at as real - 7.0 * period)
  }

  lemma CandidateLength(bits: Bits)
    requires Candidate(bits).Some?
    ensures |bits| == |Stuff(BitsLsb(Candidate(bits).value))| + 8
  {
    hide Unstuff, Stuff, BitsToBytes, Acceptable;
    var stuffed := bits[..|bits| - 8];
    var payload := Unstuff(stuffed).value;
    StuffingIsABijection(stuffed, payload);
    OctetsRoundTrip(payload, BitsToBytes(payload).value);
  }

  /** The candidate was opened by symbol `i` of those received and has buffered
      every symbol since. */
  ghost predicate OpenedBy(open: Option<Open>, seen: seq<Symbol>, period: real, i: int) {
    open.Some? ==> && 0 <= i < |seen| && open.value.start == OpeningAfter(seen[i], period)
                   && |open.value.bits| == |seen| - 1 - i
  }

  lemma OneSymbolSpans(r: Receiver, seen: seq<Symbol>, y: Symbol, period: real, i: int) returns (i': int)
    requires OpenedBy(r.link.open, seen, period, i)
    ensures var (r', found) := Receive(r, y, period);
            && OpenedBy(r'.link.open, seen + [y], period, i')
            && forall x <- found :: Spans(x, seen + [y], period, i, |seen|)
  {
    hide Candidate, Shifted, OpeningAfter, Stuff;
    var t := Timed(NrziBit(r.previous, y.selector), y.at);
    var open := Buffered(r.link.open, [t.bit]);
    if open.Some? && Candidate(open.value.bits).Some? {
      CandidateLength(open.value.bits);
    }
    var (k, found) := Emit(r.link, t, period);
    i' := if k.open.Some? && k.open.value.bits == [] then |seen| else i;
    assert (seen + [y])[|seen|] == y;
    assert OpeningAfter(y, period) == Round(t.at as real + period) by { OpeningIs(y, period); }
  }

  lemma OpeningIs(y: Symbol, period: real)
    ensures OpeningAfter(y, period) == Round(y.at as real + period)
  {
  }

  lemma {:induction false} AllSpan(r: Receiver, seen: seq<Symbol>, ys: seq<Symbol>, period: real, i: int)
    requires OpenedBy(r.link.open, seen, period, i)
    ensures forall x <- ReceiveAll(r, ys, period).1 :: exists a, b :: Spans(x, seen + ys, period, a, b)
    decreases |ys|
  {
    hide Receive, Spans, OpenedBy;
    if ys != [] {
      var (r1, first) := Receive(r, ys[0], period);
      var i' := OneSymbolSpans(r, seen, ys[0], period, i);
      AllSpan(r1, seen + [ys[0]], ys[1..], period, i');
      assert seen + ys == (seen + [ys[0]]) + ys[1..];
      forall x <- first ensures exists a, b :: Spans(x, seen + ys, period, a, b) {
        SpansMore(x, seen + [ys[0]], ys[1..], period, i, |seen|);
      }
    }
  }

  lemma SpansMore(x: Found, ys: seq<Symbol>, more: seq<Symbol>, period: real, i: int, l: int)
    requires Spans(x, ys, period, i, l)
    ensures Spans(x, ys + more, period, i, l)
  {
    hide OpeningAfter, Round, Stuff;
  }

  /** Whatever a receiver finds that began without a candidate lies between two
      flags among its symbols. */
  lemma FoundLiesBetweenFlags(r: Receiver, ys: seq<Symbol>, period: real)
    requires r.link.open.None?
    ensures forall x <- ReceiveAll(r, ys, period).1 :: exists i, l :: Spans(x, ys, period, i, l)
  {
    hide ReceiveAll, Spans;
    AllSpan(r, [], ys, period, 0);
    assert [] + ys == ys;
  }

  function Decoded(previous: Option<bool>, ys: seq<Symbol>): (ts: seq<Timed>)
    ensures |ts| == |ys|
    decreases |ys|
  {
    if ys == [] then [] else
      [Timed(NrziBit(previous, ys[0].selector), ys[0].at)] + Decoded(Some(ys[0].selector), ys[1..])
  }

  lemma {:induction false} ReceiveIsDecodeThenEmit(r: Receiver, ys: seq<Symbol>, period: real)
    ensures var (r', found) := ReceiveAll(r, ys, period);
            EmitAll(r.link, Decoded(r.previous, ys), period) == (r'.link, found)
    decreases |ys|
  {
    if ys != [] {
      var ts := Decoded(r.previous, ys);
      var r1 := Receive(r, ys[0], period).0;
      assert ts[1..] == Decoded(r1.previous, ys[1..]);
      ReceiveIsDecodeThenEmit(r1, ys[1..], period);
    }
  }

  lemma {:induction false} DecodedPrefix(previous: Option<bool>, ys: seq<Symbol>, n: nat)
    requires n <= |ys|
    ensures Decoded(previous, ys)[..n] == Decoded(previous, ys[..n])
    decreases n
  {
    if n > 0 {
      assert ys[..n][1..] == ys[1..][..n - 1];
      DecodedPrefix(Some(ys[0].selector), ys[1..], n - 1);
      assert Decoded(previous, ys)[1..] == Decoded(Some(ys[0].selector), ys[1..]);
    }
  }

  function SelectorsOf(ys: seq<Symbol>): (s: Selectors)
    ensures |s| == |ys|
  {
    seq(|ys|, i requires 0 <= i < |ys| => ys[i].selector)
  }

  lemma {:induction false} DecodedFromTone(tone: bool, ys: seq<Symbol>, bits: Bits)
    requires SelectorsOf(ys) == NrziFrom(tone, bits)
    ensures BitsOf(Decoded(Some(tone), ys)) == bits
    decreases |bits|
  {
    assert |ys| == |bits|;
    if bits != [] {
      var next := if bits[0] then tone else !tone;
      assert SelectorsOf(ys)[0] == next && SelectorsOf(ys)[1..] == SelectorsOf(ys[1..]);
      DecodedFromTone(next, ys[1..], bits[1..]);
      var ts := Decoded(Some(tone), ys);
      assert ts[1..] == Decoded(Some(next), ys[1..]);
      assert BitsOf(ts) == [ts[0].bit] + BitsOf(ts[1..]);
    }
  }

  /** Only the first bit can be decoded wrongly, and it is exactly when the
      receiver's previous tone was not the sender's initial one. */
  lemma DecodedFromAnywhere(previous: Option<bool>, tone: bool, ys: seq<Symbol>, bits: Bits)
    requires bits != [] && !bits[0] && SelectorsOf(ys) == NrziFrom(tone, bits)
    ensures BitsOf(Decoded(previous, ys)) == [previous != Some(tone)] + bits[1..]
  {
    hide BitsOf;
    assert SelectorsOf(ys)[0] == ys[0].selector && SelectorsOf(ys)[1..] == SelectorsOf(ys[1..]);
    DecodedFromTone(!tone, ys[1..], bits[1..]);
    var ts := Decoded(previous, ys);
    assert ts[1..] == Decoded(Some(!tone), ys[1..]);
    BitsOfConcat([ts[0]], ts[1..]);
    assert ts == [ts[0]] + ts[1..];
    assert BitsOf([ts[0]]) == [ts[0].bit] by { BitsOfOne(ts[0]); }
  }

  lemma BitsOfOne(t: Timed)
    ensures BitsOf([t]) == [t.bit]
  {
  }

  // ---- The link

  datatype Burst = Burst(frame: Bytes, preFlags: nat, postFlags: nat, tone: bool)

  predicate Sendable(b: Burst) { b.frame != [] && b.preFlags >= 1 && b.postFlags >= 1 }

  function Sent(b: Burst): Selectors
    requires Sendable(b)
  {
    FrameToSelectors(b.frame, b.preFlags, b.postFlags, b.tone).value
  }

  /** From ANY receiver state, the selectors of one burst yield the burst's
      frame if it is deliverable at all, and nothing else from its second flag
      on; `left` is at most one candidate that was already under way.  With a
      single opening flag the frame gets through exactly when the receiver's
      previous tone was the sender's initial one. */
  lemma BurstDelivered(r: Receiver, ys: seq<Symbol>, b: Burst, period: real)
    requires Bounded(r.link) && Sendable(b) && SelectorsOf(ys) == Sent(b)
    ensures var (r', found) := ReceiveAll(r, ys, period);
            var left := ReceiveAll(r, ys[..8], period).1;
            && Synced(r'.link) && |left| <= 1
            && (Synced(r.link) || r.previous != Some(b.tone) ==> left == [])
            && Frames(found) == Frames(left)
                 + (if b.preFlags >= 2 || r.previous == Some(b.tone) then Delivered(b.frame) else [])
  {
    hide Emit, EmitAll, Stuff, Synced, Delivered, Frames, NrziFrom, BitsOf, Decoded, Receive, ReceiveAll;
    var bits := Flags(b.preFlags) + Stuff(BitsLsb(b.frame)) + Flags(b.postFlags);
    DecodedFromAnywhere(r.previous, b.tone, ys, bits);
    ReceiveIsDecodeThenEmit(r, ys, period);
    ReceiveIsDecodeThenEmit(r, ys[..8], period);
    DecodedPrefix(r.previous, ys, 8);
    BurstBits(r.link, Decoded(r.previous, ys), r.previous != Some(b.tone), b.frame, b.preFlags, b.postFlags, period);
  }

  function SentAll(bursts: seq<Burst>): Selectors
    requires forall i :: 0 <= i < |bursts| ==> Sendable(bursts[i])
  {
    if bursts == [] then [] else Sent(bursts[0]) + SentAll(bursts[1..])
  }

  function DeliveredAll(bursts: seq<Burst>): seq<Bytes> {
    if bursts == [] then [] else Delivered(bursts[0].frame) + DeliveredAll(bursts[1..])
  }

  lemma SplitSymbols(r: Receiver, ys: seq<Symbol>, x: Selectors, y: Selectors, period: real)
    requires SelectorsOf(ys) == x + y
    ensures |ys| == |x| + |y| && SelectorsOf(ys[..|x|]) == x && SelectorsOf(ys[|x|..]) == y
    ensures var (r1, f1) := ReceiveAll(r, ys[..|x|], period);
            var f2 := ReceiveAll(r1, ys[|x|..], period).1;
            Frames(ReceiveAll(r, ys, period).1) == Frames(f1) + Frames(f2)
  {
    hide ReceiveAll;
    var a, b := ys[..|x|], ys[|x|..];
    assert ys == a + b;
    assert SelectorsOf(a) == SelectorsOf(ys)[..|x|] && SelectorsOf(b) == SelectorsOf(ys)[|x|..];
    ReceiveAllConcat(r, a, b, period);
  }

  /** The self-synchronising link: from any receiver state, back-to-back bursts
      with at least two opening flags each are delivered exactly and in order,
      after at most one candidate that was already under way and that ended
      within the first flag. */
  lemma {:induction false} LinkDelivers(r: Receiver, ys: seq<Symbol>, bursts: seq<Burst>, period: real)
    requires Bounded(r.link) && bursts != []
    requires forall i :: 0 <= i < |bursts| ==> Sendable(bursts[i]) && bursts[i].preFlags >= 2
    requires SelectorsOf(ys) == SentAll(bursts)
    ensures var left := Frames(ReceiveAll(r, ys[..8], period).1);
            && Frames(ReceiveAll(r, ys, period).1) == left + DeliveredAll(bursts)
            && |left| <= 1 && (Synced(r.link) || r.previous != Some(bursts[0].tone) ==> left == [])
    decreases |bursts|
  {
    hide Sendable, Synced, Delivered, Sent, ReceiveAll, SelectorsOf, Frames;
    var n := |Sent(bursts[0])|;
    SplitSymbols(r, ys, Sent(bursts[0]), SentAll(bursts[1..]), period);
    assert n >= 8 by { SentLength(bursts[0]); }
    BurstDelivered(r, ys[..n], bursts[0], period);
    assert ys[..n][..8] == ys[..8];
    var r1 := ReceiveAll(r, ys[..n], period).0;
    assert Bounded(r1.link) by { SyncedHasNoTrail(r1.link); }
    if |bursts| == 1 {
      assert ReceiveAll(r1, ys[n..], period) == (r1, []) by { NothingReceived(r1, ys[n..], period); }
      assert DeliveredAll(bursts[1..]) == [];
    } else {
      LinkDelivers(r1, ys[n..], bursts[1..], period);
    }
  }

  lemma SentLength(b: Burst)
    requires Sendable(b)
    ensures |Sent(b)| == 8 * b.preFlags + |Stuff(BitsLsb(b.frame))| + 8 * b.postFlags
  {
  }

  lemma NothingReceived(r: Receiver, ys: seq<Symbol>, period: real)
    requires SelectorsOf(ys) == []
    ensures ReceiveAll(r, ys, period) == (r, [])
  {
    assert |ys| == 0;
  }
}
