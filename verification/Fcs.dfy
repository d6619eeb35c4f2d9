/** The AX.25 frame check sequence (CRC-16/X-25): the source's loops over
    octets, their bit-serial meaning, the residue law, and the burst errors
    that the check detects.  A 16-bit word is its bits, least significant
    first, so `w >> 1` drops bit 0 and `^` acts bit by bit. */
module Fcs {
  import opened Primitives

  type Word = w: Bits | |w| == 16 witness seq(16, _ => false)

  function Zero(): Word { seq(16, _ => false) }
  function Ones(): Word { seq(16, _ => true) }

  /** 0x8408: bits 3, 10 and 15. */
  function Poly(): Word { seq(16, i => i == 3 || i == 10 || i == 15) }

  function Xor(a: Word, b: Word): Word { seq(16, i requires 0 <= i < 16 => a[i] != b[i]) }
  function Half(w: Word): Word { w[1..] + [false] }
  function FromByte(b: Byte): Word { ByteBits(b) + seq(8, _ => false) }

  function Shift(r: Word): Word { if r[0] then Xor(Half(r), Poly()) else Half(r) }

  function ShiftTimes(r: Word, n: nat): Word
    decreases n
  {
    if n == 0 then r else ShiftTimes(Shift(r), n - 1)
  }

  function Absorb(r: Word, b: Byte): Word { ShiftTimes(Xor(r, FromByte(b)), 8) }

  /** The register after absorbing every octet of `data` in order. */
  function Register(r: Word, data: Bytes): Word
    decreases |data|
  {
    if data == [] then r else Register(Absorb(r, data[0]), data[1..])
  }

  function Crc(data: Bytes): Word { Xor(Register(Ones(), data), Ones()) }

  /** The inner loop of `crc_x25`: eight conditional shifts. */
  method ShiftEight(r: Word) returns (crc: Word)
    ensures crc == ShiftTimes(r, 8)
  {
    crc := r;
    for k := 0 to 8
      invariant ShiftTimes(crc, 8 - k) == ShiftTimes(r, 8)
    {
      hide Xor, Half, Poly;
      if crc[0] {
        crc := Xor(Half(crc), Poly());
      } else {
        crc := Half(crc);
      }
    }
  }

  /** The outer loop of `crc_x25`. */
  method CrcX25(data: Bytes) returns (crc: Word)
    ensures crc == Crc(data)
  {
    hide Xor, ShiftTimes, FromByte, Ones;
    crc := Ones();
    for i := 0 to |data|
      invariant Register(crc, data[i..]) == Register(Ones(), data)
    {
      assert data[i..][0] == data[i] && data[i..][1..] == data[i + 1..];
      crc := ShiftEight(Xor(crc, FromByte(data[i])));
    }
    crc := Xor(crc, Ones());
  }

  /** Nothing absorbed leaves a check sequence of zero: start value and final
      inversion cancel. */
  lemma CrcOfNothing()
    ensures Crc([]) == Zero()
  {
    assert Xor(Ones(), Ones()) == Zero();
  }

  function AppendFcs(data: Bytes): Bytes {
    var crc := Crc(data);
    data + [ByteOf(crc[..8]), ByteOf(crc[8..])]
  }

  function LittleEndian(lo: Byte, hi: Byte): Word { ByteBits(lo) + ByteBits(hi) }

  predicate VerifyFcs(frame: Bytes) {
    var n := |frame|;
    n >= 2 && Crc(frame[..n - 2]) == LittleEndian(frame[n - 2], frame[n - 1])
  }

  // ---- Bit-serial meaning

  /** One transmitted bit entering the register. */
  function Clock(r: Word, bit: bool): Word { if r[0] != bit then Xor(Half(r), Poly()) else Half(r) }

  function Clocked(r: Word, bits: Bits): Word
    decreases |bits|
  {
    if bits == [] then r else Clocked(Clock(r, bits[0]), bits[1..])
  }

  lemma {:induction false} ClockedConcat(r: Word, a: Bits, b: Bits)
    ensures Clocked(r, a + b) == Clocked(Clocked(r, a), b)
    decreases |a|
  {
    if a == [] {
      assert a + b == b;
    } else {
      assert (a + b)[1..] == a[1..] + b;
      ClockedConcat(Clock(r, a[0]), a[1..], b);
    }
  }

  /** Folding up to sixteen bits into the register at once, as the source does
      with an octet, is clocking them in one at a time. */
  lemma {:induction false} FoldIsClocked(r: Word, bits: Bits)
    requires |bits| <= 16
    ensures ShiftTimes(Xor(r, Padded(bits)), |bits|) == Clocked(r, bits)
    decreases |bits|
  {
    if bits == [] {
      assert Xor(r, Padded(bits)) == r;
    } else {
      assert Shift(Xor(r, Padded(bits))) == Xor(Clock(r, bits[0]), Padded(bits[1..]));
      FoldIsClocked(Clock(r, bits[0]), bits[1..]);
    }
  }

  function Padded(bits: Bits): Word
    requires |bits| <= 16
  {
    bits + seq(16 - |bits|, _ => false)
  }

  lemma {:induction false} RegisterIsClocked(r: Word, data: Bytes)
    ensures Register(r, data) == Clocked(r, BitsLsb(data))
    decreases |data|
  {
    if data != [] {
      FoldIsClocked(r, ByteBits(data[0]));
      assert Padded(ByteBits(data[0])) == FromByte(data[0]);
      ClockedConcat(r, ByteBits(data[0]), BitsLsb(data[1..]));
      RegisterIsClocked(Absorb(r, data[0]), data[1..]);
    }
  }

  // ---- The residue law

  /** 0xF0B8. */
  function Residue(): Word {
    [false, false, false, true, true, true, false, true, false, false, false, false, true, true, true, true]
  }

  lemma ShiftInjective(a: Word, b: Word)
    requires Shift(a) == Shift(b)
    ensures a == b
  {
    assert Shift(a)[15] == a[0] && Shift(b)[15] == b[0];
    forall i | 1 <= i < 16
      ensures a[i] == b[i]
    {
      assert a[i] == (Shift(a)[i - 1] != (a[0] && Poly()[i - 1]));
      assert b[i] == (Shift(b)[i - 1] != (b[0] && Poly()[i - 1]));
    }
  }

  lemma {:induction false} ShiftTimesInjective(a: Word, b: Word, n: nat)
    requires ShiftTimes(a, n) == ShiftTimes(b, n)
    ensures a == b
    decreases n
  {
    if n > 0 {
      ShiftTimesInjective(Shift(a), Shift(b), n - 1);
      ShiftInjective(a, b);
    }
  }

  lemma ShiftWord(r: Word)
    ensures Shift(r) == [r[1], r[2], r[3], r[4] != r[0], r[5], r[6], r[7], r[8],
                         r[9], r[10], r[11] != r[0], r[12], r[13], r[14], r[15], r[0]]
  {
  }

  lemma ShiftBits(b0: bool, b1: bool, b2: bool, b3: bool, b4: bool, b5: bool, b6: bool, b7: bool,
                  b8: bool, b9: bool, b10: bool, b11: bool, b12: bool, b13: bool, b14: bool, b15: bool)
    ensures Shift([b0, b1, b2, b3, b4, b5, b6, b7, b8, b9, b10, b11, b12, b13, b14, b15])
         == [b1, b2, b3, (b0 != b4), b5, b6, b7, b8,
             b9, b10, (b0 != b11), b12, b13, b14, b15, b0]
  {
    hide Shift;
    ShiftWord([b0, b1, b2, b3, b4, b5, b6, b7, b8, b9, b10, b11, b12, b13, b14, b15]);
  }

  lemma ShiftFour(b0: bool, b1: bool, b2: bool, b3: bool, b4: bool, b5: bool, b6: bool, b7: bool,
                  b8: bool, b9: bool, b10: bool, b11: bool, b12: bool, b13: bool, b14: bool, b15: bool)
    ensures ShiftTimes([b0, b1, b2, b3, b4, b5, b6, b7, b8, b9, b10, b11, b12, b13, b14, b15], 4)
         == [(b0 != b4), (b1 != b5), (b2 != b6), (b3 != b7), b8, b9, b10, (b0 != b11),
             (b1 != b12), (b2 != b13), (b3 != b14), b15, b0, b1, b2, b3]
  {
    hide Shift;
    ShiftBits(b0, b1, b2, b3, b4, b5, b6, b7, b8, b9, b10, b11, b12, b13, b14, b15);
    ShiftBits(b1, b2, b3, (b0 != b4), b5, b6, b7, b8, b9, b10, (b0 != b11), b12, b13, b14, b15, b0);
    ShiftBits(b2, b3, (b0 != b4), (b1 != b5), b6, b7, b8, b9, b10, (b0 != b11), (b1 != b12), b13, b14, b15, b0, b1);
    ShiftBits(b3, (b0 != b4), (b1 != b5), (b2 != b6), b7, b8, b9, b10,
              (b0 != b11), (b1 != b12), (b2 != b13), b14, b15, b0, b1, b2);
  }

  lemma {:induction false} ShiftTimesSum(r: Word, m: nat, n: nat)
    ensures ShiftTimes(r, m + n) == ShiftTimes(ShiftTimes(r, m), n)
    decreases m
  {
    hide Shift;
    if m > 0 {
      ShiftTimesSum(Shift(r), m - 1, n);
    }
  }

  lemma ShiftedOnes()
    ensures ShiftTimes(Ones(), 16) == Residue()
    ensures ShiftTimes(Ones(), 8)[15] == false
  {
    hide Shift, ShiftTimes;
    var w0: Word := [true, true, true, true, true, true, true, true, true, true, true, true, true, true, true, true];
    var w1: Word := [false, false, false, false, true, true, true, false,
                     false, false, false, true, true, true, true, true];
    var w2: Word := [true, true, true, false, false, false, false, true,
                     true, true, true, true, false, false, false, false];
    var w3: Word := [true, true, true, true, true, true, true, false,
                     true, true, false, false, true, true, true, false];
    assert Ones() == w0;
    ShiftTimesSum(w0, 4, 12);
    ShiftFour(true, true, true, true, true, true, true, true, true, true, true, true, true, true, true, true);
    ShiftTimesSum(w0, 4, 4);
    ShiftTimesSum(w1, 4, 8);
    ShiftFour(false, false, false, false, true, true, true, false, false, false, false, true, true, true, true, true);
    ShiftTimesSum(w2, 4, 4);
    ShiftFour(true, true, true, false, false, false, false, true, true, true, true, true, false, false, false, false);
    ShiftFour(true, true, true, true, true, true, true, false, true, true, false, false, true, true, true, false);
  }

  lemma XorSolve(r: Word, w: Word)
    ensures Xor(r, w) == Ones() <==> Xor(r, Ones()) == w
  {
    if Xor(r, w) == Ones() {
      forall i | 0 <= i < 16 ensures Xor(r, Ones())[i] == w[i] { assert Xor(r, w)[i]; }
    }
    if Xor(r, Ones()) == w {
      forall i | 0 <= i < 16 ensures Xor(r, w)[i] { assert w[i] == Xor(r, Ones())[i]; }
    }
  }

  /** The register over a whole frame is sixteen shifts of the body's register
      folded with the check sequence. */
  lemma RegisterOfFrame(body: Bytes, lo: Byte, hi: Byte)
    ensures Register(Ones(), body + [lo, hi]) == ShiftTimes(Xor(Register(Ones(), body), LittleEndian(lo, hi)), 16)
  {
    hide Xor, Shift, Ones, Clock;
    var r, w := Register(Ones(), body), LittleEndian(lo, hi);
    BitsLsbConcat(body, [lo, hi]);
    assert BitsLsb([lo, hi]) == w by { assert [lo, hi][1..] == [hi]; }
    RegisterIsClocked(Ones(), body + [lo, hi]);
    RegisterIsClocked(Ones(), body);
    ClockedConcat(Ones(), BitsLsb(body), w);
    FoldIsClocked(r, w);
    assert Padded(w) == w;
  }

  lemma ShortFrameMissesResidue(frame: Bytes)
    requires |frame| < 2
    ensures Register(Ones(), frame) != Residue()
  {
    hide Shift, ShiftTimes;
    if |frame| == 1 {
      ShiftedOnes();
      ShiftTimesSum(Ones(), 8, 8);
      var folded := Xor(Ones(), FromByte(frame[0]));
      assert folded[15];
      assert Register(Ones(), frame) == ShiftTimes(folded, 8) by { assert frame[1..] == []; }
      if Register(Ones(), frame) == Residue() {
        ShiftTimesInjective(folded, ShiftTimes(Ones(), 8), 8);
      }
    } else {
      assert Ones()[0] && !Residue()[0];
    }
  }

  /** Verifying the trailing two octets is testing the register over the whole
      frame, check sequence included, against one constant. */
  lemma VerifyIffResidue(frame: Bytes)
    ensures VerifyFcs(frame) <==> Register(Ones(), frame) == Residue()
  {
    hide Xor, Shift, ShiftTimes, Ones, Residue, Register, LittleEndian;
    var n := |frame|;
    if n < 2 {
      ShortFrameMissesResidue(frame);
      return;
    }
    var body, lo, hi := frame[..n - 2], frame[n - 2], frame[n - 1];
    var r, w := Register(Ones(), body), LittleEndian(lo, hi);
    assert frame == body + [lo, hi];
    RegisterOfFrame(body, lo, hi);
    ShiftedOnes();
    if Register(Ones(), frame) == Residue() {
      ShiftTimesInjective(Xor(r, w), Ones(), 16);
    }
    XorSolve(r, w);
  }

  /** A frame that was just given its check sequence verifies. */
  lemma AppendedFcsVerifies(data: Bytes)
    ensures VerifyFcs(AppendFcs(data))
  {
    hide Xor, Ones;
    var crc := Crc(data);
    var lo, hi := ByteOf(crc[..8]), ByteOf(crc[8..]);
    ByteRoundTrip(lo, crc[..8]);
    ByteRoundTrip(hi, crc[8..]);
    assert crc == crc[..8] + crc[8..];
    assert AppendFcs(data)[..|data|] == data;
  }

  // ---- Burst errors

  function Xored(a: Bits, b: Bits): Bits
    requires |a| == |b|
  {
    seq(|a|, i requires 0 <= i < |a| => a[i] != b[i])
  }

  lemma ClockLinear(r: Word, s: Word, a: bool, b: bool)
    ensures Clock(Xor(r, s), a != b) == Xor(Clock(r, a), Clock(s, b))
  {
  }

  lemma {:induction false} ClockedLinear(r: Word, s: Word, a: Bits, b: Bits)
    requires |a| == |b|
    ensures Clocked(Xor(r, s), Xored(a, b)) == Xor(Clocked(r, a), Clocked(s, b))
    decreases |a|
  {
    hide Clock, Xor;
    if a == [] {
      assert Xored(a, b) == [];
    } else {
      ClockLinear(r, s, a[0], b[0]);
      assert Xored(a, b)[0] == (a[0] != b[0]) && Xored(a, b)[1..] == Xored(a[1..], b[1..]);
      ClockedLinear(Clock(r, a[0]), Clock(s, b[0]), a[1..], b[1..]);
    }
  }

  /** At most sixteen bits drive the register to zero only if they are exactly
      what it already held. */
  lemma {:induction false} ZeroIffHeld(r: Word, bits: Bits)
    requires |bits| <= 16
    ensures Clocked(r, bits) == Zero() <==> r == Padded(bits)
  {
    FoldIsClocked(r, bits);
    ShiftedZero(|bits|);
    if r == Padded(bits) {
      XorSelf(r);
    }
    if Clocked(r, bits) == Zero() {
      ShiftTimesInjective(Xor(r, Padded(bits)), Zero(), |bits|);
      forall i | 0 <= i < 16 ensures r[i] == Padded(bits)[i] {
        assert !Xor(r, Padded(bits))[i];
      }
    }
  }

  lemma {:induction false} ShiftedZero(n: nat)
    ensures ShiftTimes(Zero(), n) == Zero()
  {
    if n > 0 {
      assert Shift(Zero()) == Zero();
      ShiftedZero(n - 1);
    }
  }

  predicate Quiet(bits: Bits) { forall i :: 0 <= i < |bits| ==> !bits[i] }

  /** Clocking in zero bits never brings a non-zero register to zero. */
  lemma {:induction false} QuietKeepsNonZero(r: Word, bits: Bits)
    requires Quiet(bits)
    ensures Clocked(r, bits) == Zero() <==> r == Zero()
    decreases |bits|
  {
    if bits != [] {
      assert Clock(r, bits[0]) == Shift(r);
      QuietKeepsNonZero(Shift(r), bits[1..]);
      assert Shift(Zero()) == Zero();
      if Shift(r) == Zero() {
        ShiftInjective(r, Zero());
      }
    }
  }

  /** An error pattern confined to sixteen consecutive bits leaves the register
      at zero only if it is no error at all. */
  lemma BurstLeavesTrace(e: Bits, start: nat)
    requires start <= |e|
    requires forall i :: 0 <= i < |e| && e[i] ==> start <= i < start + 16
    requires Clocked(Zero(), e) == Zero()
    ensures Quiet(e)
  {
    hide Clocked, Zero, Quiet;
    var stop := if start + 16 <= |e| then start + 16 else |e|;
    QuietOutside(e, start, stop);
    BetweenQuiet(e[..start], e[start..stop], e[stop..]);
    QuietThroughout(e, start, stop);
  }

  /** The pattern in three parts, of which only the middle one may hold errors. */
  lemma QuietOutside(e: Bits, start: nat, stop: nat)
    requires start <= stop <= |e| && forall i :: 0 <= i < |e| && e[i] ==> start <= i < stop
    ensures e == e[..start] + (e[start..stop] + e[stop..]) && Quiet(e[..start]) && Quiet(e[stop..])
  {
  }

  lemma QuietThroughout(e: Bits, start: nat, stop: nat)
    requires start <= stop <= |e| && Quiet(e[..start]) && Quiet(e[start..stop]) && Quiet(e[stop..])
    ensures Quiet(e)
  {
    forall i | 0 <= i < |e| ensures !e[i] {
      if i < start {
        assert e[..start][i] == e[i];
      } else if i < stop {
        assert e[start..stop][i - start] == e[i];
      } else {
        assert e[stop..][i - stop] == e[i];
      }
    }
  }

  lemma BetweenQuiet(before: Bits, burst: Bits, after: Bits)
    requires Quiet(before) && |burst| <= 16 && Quiet(after)
    requires Clocked(Zero(), before + (burst + after)) == Zero()
    ensures Quiet(burst)
  {
    hide Clocked, Padded, Zero, Quiet;
    ClockedConcat(Zero(), before, burst + after);
    QuietKeepsNonZero(Zero(), before);
    ClockedConcat(Zero(), burst, after);
    QuietKeepsNonZero(Clocked(Zero(), burst), after);
    ZeroIffHeld(Zero(), burst);
    PaddedZero(burst);
  }

  lemma PaddedZero(bits: Bits)
    requires |bits| <= 16 && Padded(bits) == Zero()
    ensures Quiet(bits)
  {
    forall i | 0 <= i < |bits| ensures !bits[i] { assert Padded(bits)[i] == bits[i]; }
  }

  /** The transmitted bits of `a` and `b` differ at most within the sixteen
      bits that follow bit `start`. */
  ghost predicate DifferWithin16(a: Bytes, b: Bytes, start: nat)
    requires |a| == |b|
  {
    forall i :: 0 <= i < 8 * |a| && BitsLsb(a)[i] != BitsLsb(b)[i] ==> start <= i < start + 16
  }

  /** Any corruption of a valid frame, of whatever length, that is confined to
      sixteen consecutive transmitted bits is rejected; the window may lie
      across the boundary between the data and the check sequence. */
  lemma BurstErrorRejected(sent: Bytes, received: Bytes, start: nat)
    requires |received| == |sent| && start <= 8 * |sent|
    ensures VerifyFcs(sent) && received != sent && DifferWithin16(sent, received, start) ==> !VerifyFcs(received)
  {
    hide Xor, Clock, Residue, Ones, Zero;
    var a, b := BitsLsb(sent), BitsLsb(received);
    if VerifyFcs(sent) && VerifyFcs(received) && DifferWithin16(sent, received, start) {
      VerifyIffResidue(sent);
      VerifyIffResidue(received);
      RegisterIsClocked(Ones(), sent);
      RegisterIsClocked(Ones(), received);
      ClockedLinear(Ones(), Ones(), a, b);
      XorSelf(Ones());
      XorSelf(Residue());
      BurstLeavesTrace(Xored(a, b), start);
      assert a == b by {
        forall i | 0 <= i < |a| ensures a[i] == b[i] { assert !Xored(a, b)[i]; }
      }
      BitsLsbInjective(sent, received);
    }
  }

  lemma XorSelf(w: Word)
    ensures Xor(w, w) == Zero()
  {
  }
}
