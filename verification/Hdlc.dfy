/** HDLC serialization of one AX.25 frame: bit stuffing, flags, NRZI tone
    selectors and the packed selector octets handed to the modem. */
module Hdlc {
  import opened Primitives

  datatype HdlcError = BadStuffing | EmptyFrame | TooFewFlags | PartialOctet | BadSelectorCount

  /** 0x7E, least significant bit first. */
  function Flag(): Bits { [false, true, true, true, true, true, true, false] }

  lemma LowStep(v: nat, n: nat)
    requires n > 0
    ensures LowBits(v, n) == [v % 2 == 1] + LowBits(v / 2, n - 1)
  {
  }

  lemma FlagIs7E()
    ensures ByteBits(0x7E) == Flag()
  {
    hide LowBits;
    LowStep(0x7E, 8);
    LowStep(63, 7);
    LowStep(31, 6);
    LowStep(15, 5);
    LowStep(7, 4);
    LowStep(3, 3);
    LowStep(1, 2);
    LowStep(0, 1);
  }

  method ByteBitsLsb(data: Bytes) returns (out: Bits)
    ensures out == BitsLsb(data)
  {
    out := [];
    for i := 0 to |data|
      invariant out + BitsLsb(data[i..]) == BitsLsb(data)
    {
      assert data[i..][0] == data[i] && data[i..][1..] == data[i + 1..];
      out := out + ByteBits(data[i]);
    }
  }

  // ---- Bit stuffing

  /** Stuffing of `bits` when `ones` consecutive one bits were just sent. */
  function StuffFrom(ones: nat, bits: Bits): Bits
    requires ones < 5
    decreases |bits|
  {
    if bits == [] then []
    else if !bits[0] then [false] + StuffFrom(0, bits[1..])
    else if ones == 4 then [true, false] + StuffFrom(0, bits[1..])
    else [true] + StuffFrom(ones + 1, bits[1..])
  }

  function Stuff(bits: Bits): Bits { StuffFrom(0, bits) }

  lemma StuffStep(out: Bits, ones: nat, rest: Bits)
    requires ones < 5 && rest != []
    ensures out + StuffFrom(ones, rest)
         == if !rest[0] then (out + [false]) + StuffFrom(0, rest[1..])
            else if ones == 4 then (out + [true] + [false]) + StuffFrom(0, rest[1..])
            else (out + [true]) + StuffFrom(ones + 1, rest[1..])
  {
  }

  method StuffBits(bits: Bits) returns (out: Bits)
    ensures out == Stuff(bits)
  {
    hide StuffFrom;
    out := [];
    var ones := 0;
    assert bits[0..] == bits && [] + Stuff(bits) == Stuff(bits);
    assert StuffFrom(0, []) == [] by { StuffEmpty(); }
    for i := 0 to |bits|
      invariant 0 <= ones < 5
      invariant out + StuffFrom(ones, bits[i..]) == Stuff(bits)
    {
      ghost var rest := bits[i..];
      assert rest[0] == bits[i] && rest[1..] == bits[i + 1..];
      StuffStep(out, ones, rest);
      out := out + [bits[i]];
      if bits[i] {
        ones := ones + 1;
        if ones == 5 {
          out := out + [false];
          ones := 0;
        }
      } else {
        ones := 0;
      }
    }
    StuffEmpty();
    assert bits[|bits|..] == [];
  }

  lemma StuffEmpty()
    ensures forall ones: nat :: ones < 5 ==> StuffFrom(ones, []) == []
  {
  }

  /** Removal of stuffing from `src` after `ones` consecutive one bits. */
  function UnstuffFrom(ones: nat, src: Bits): (r: Result<Bits, HdlcError>)
    requires ones < 5
    decreases |src|
  {
    if src == [] then Ok([])
    else if !src[0] then Prepend(false, UnstuffFrom(0, src[1..]))
    else if ones < 4 then Prepend(true, UnstuffFrom(ones + 1, src[1..]))
    else if |src| < 2 || src[1] then Err(BadStuffing)
    else Prepend(true, UnstuffFrom(0, src[2..]))
  }

  function Prepend(bit: bool, r: Result<Bits, HdlcError>): Result<Bits, HdlcError> {
    match r
    case Ok(bits) => Ok([bit] + bits)
    case Err(e) => Err(e)
  }

  function Unstuff(src: Bits): Result<Bits, HdlcError> { UnstuffFrom(0, src) }

  /** What `done` already-recovered bits and the outcome for the rest amount to. */
  function Completed(done: Bits, r: Result<Bits, HdlcError>): Result<Bits, HdlcError> {
    match r
    case Ok(bits) => Ok(done + bits)
    case Err(e) => Err(e)
  }

  method UnstuffBits(src: Bits) returns (r: Result<Bits, HdlcError>)
    ensures r == Unstuff(src)
  {
    var out: Bits := [];
    var ones := 0;
    var i := 0;
    assert src[0..] == src && forall bits: Bits :: [] + bits == bits;
    while i < |src|
      invariant 0 <= i <= |src| && 0 <= ones < 5
      invariant Completed(out, UnstuffFrom(ones, src[i..])) == Unstuff(src)
    {
      ghost var rest := src[i..];
      assert rest[1..] == src[i + 1..];
      assert |rest| >= 2 ==> rest[2..] == src[i + 2..];
      ghost var before := out;
      var bit := src[i];
      out := out + [bit];
      assert forall more: Bits :: before + ([bit] + more) == out + more;
      i := i + 1;
      if bit {
        ones := ones + 1;
        if ones == 5 {
          if i >= |src| || src[i] {
            return Err(BadStuffing);
          }
          i := i + 1;
          ones := 0;
        }
      } else {
        ones := 0;
      }
    }
    assert out + [] == out;
    r := Ok(out);
  }

  lemma {:induction false} UnstuffInvertsStuff(ones: nat, bits: Bits)
    requires ones < 5
    ensures UnstuffFrom(ones, StuffFrom(ones, bits)) == Ok(bits)
    decreases |bits|
  {
    if bits != [] {
      var s := StuffFrom(ones, bits);
      var next := if bits[0] && ones < 4 then ones + 1 else 0;
      UnstuffInvertsStuff(next, bits[1..]);
      if bits[0] && ones == 4 {
        assert s[2..] == StuffFrom(0, bits[1..]);
      } else {
        assert s[1..] == StuffFrom(next, bits[1..]);
      }
      assert bits == [bits[0]] + bits[1..];
    }
  }

  lemma {:induction false} StuffInvertsUnstuff(ones: nat, src: Bits)
    requires ones < 5
    ensures var r := UnstuffFrom(ones, src); r.Ok? ==> StuffFrom(ones, r.value) == src
    decreases |src|
  {
    if src != [] {
      var r := UnstuffFrom(ones, src);
      if src[0] && ones == 4 {
        if r.Ok? {
          StuffInvertsUnstuff(0, src[2..]);
          assert r.value[1..] == UnstuffFrom(0, src[2..]).value;
          assert src == [true, false] + src[2..];
        }
      } else {
        var next := if src[0] then ones + 1 else 0;
        StuffInvertsUnstuff(next, src[1..]);
        if r.Ok? {
          assert r.value[1..] == UnstuffFrom(next, src[1..]).value;
        }
      }
    }
  }

  /** `unstuff_bits` accepts exactly the image of `stuff_bits`, and recovers
      the one bit string that was stuffed. */
  lemma StuffingIsABijection(src: Bits, bits: Bits)
    ensures Unstuff(src) == Ok(bits) <==> src == Stuff(bits)
  {
    UnstuffInvertsStuff(0, bits);
    StuffInvertsUnstuff(0, src);
  }

  /** Six one bits in a row starting at `i`. */
  predicate SixOnesAt(s: Bits, i: nat) {
    i + 6 <= |s| && s[i] && s[i + 1] && s[i + 2] && s[i + 3] && s[i + 4] && s[i + 5]
  }

  /** With `ones` one bits already sent, the run that continues into the
      stuffed bits stops before its sixth one, and no later run has six. */
  lemma {:induction false} StuffedRunsAreShort(ones: nat, bits: Bits)
    requires ones < 5
    ensures var s := StuffFrom(ones, bits);
            && (forall i :: 0 <= i <= |s| ==> !SixOnesAt(s, i))
            && (|s| > 5 - ones ==> exists j :: 0 <= j <= 5 - ones && !s[j])
    decreases |bits|
  {
    if bits != [] {
      var s := StuffFrom(ones, bits);
      var next := if bits[0] && ones < 4 then ones + 1 else 0;
      var head := if bits[0] && ones == 4 then 2 else 1;
      var rest := StuffFrom(next, bits[1..]);
      assert s[head..] == rest;
      StuffedRunsAreShort(next, bits[1..]);
      if |s| > 5 - ones {
        if !bits[0] {
          assert !s[0];
        } else if ones == 4 {
          assert !s[1];
        } else {
          var j :| 0 <= j <= 5 - next && !rest[j];
          assert s[j + 1] == rest[j];
        }
      }
      forall i | 0 <= i <= |s| ensures !SixOnesAt(s, i) {
        if SixOnesAt(s, i) {
          if i >= head {
            assert SixOnesAt(rest, i - head);
          }
        }
      }
    }
  }

  predicate FlagAt(s: Bits, i: nat) { i + 8 <= |s| && s[i..i + 8] == Flag() }

  /** Between an opening and a closing flag, a stuffed body shows no further
      flag at any offset, neither inside it nor straddling either flag. */
  lemma OnlyTheDelimitersAreFlags(bits: Bits, i: nat)
    requires FlagAt(Flag() + Stuff(bits) + Flag(), i)
    ensures i == 0 || i == 8 + |Stuff(bits)|
  {
    var body := Stuff(bits);
    var s := Flag() + body + Flag();
    var w := s[i..i + 8];
    assert w[1] == s[i + 1] && w[2] == s[i + 2] && w[3] == s[i + 3];
    assert w[4] == s[i + 4] && w[5] == s[i + 5] && w[6] == s[i + 6];
    assert s[i + 1] && s[i + 2] && s[i + 3] && s[i + 4] && s[i + 5] && s[i + 6];
    assert !s[7] && !s[8 + |body|];
    StuffedRunsAreShort(0, bits);
    assert forall k :: 0 <= k < |body| ==> s[8 + k] == body[k];
    assert 7 <= i < 2 + |body| ==> SixOnesAt(body, i - 7);
  }

  lemma {:induction false} StuffedLength(ones: nat, bits: Bits)
    requires ones < 5
    ensures var n := |StuffFrom(ones, bits)|; |bits| <= n && 5 * n <= 6 * |bits| + ones
    decreases |bits|
  {
    if bits != [] {
      StuffedLength(if bits[0] && ones < 4 then ones + 1 else 0, bits[1..]);
    }
  }

  // ---- Flags around the stuffed body

  function Flags(n: nat): (s: Bits)
    ensures |s| == 8 * n
  {
    if n == 0 then [] else Flag() + Flags(n - 1)
  }

  function HdlcBits(frame: Bytes, preFlags: int, postFlags: int): Result<Bits, HdlcError> {
    if frame == [] then Err(EmptyFrame)
    else if preFlags < 1 || postFlags < 1 then Err(TooFewFlags)
    else Ok(Flags(preFlags) + Stuff(BitsLsb(frame)) + Flags(postFlags))
  }

  /** The `n` octets whose bits are given, least significant bit first. */
  function Octets(bits: Bits, n: nat): (data: Bytes)
    requires |bits| == 8 * n
    ensures |data| == n && BitsLsb(data) == bits
    decreases n
  {
    if n == 0 then [] else
      ByteRoundTrip(0, bits[..8]);
      assert bits == bits[..8] + bits[8..];
      var data := [ByteOf(bits[..8])] + Octets(bits[8..], n - 1);
      assert data[1..] == Octets(bits[8..], n - 1);
      data
  }

  function BitsToBytes(bits: Bits): Result<Bytes, HdlcError> {
    if |bits| % 8 != 0 then Err(PartialOctet) else Ok(Octets(bits, |bits| / 8))
  }

  lemma {:induction false} ValueOfSnoc(bits: Bits, bit: bool)
    ensures ValueOf(bits + [bit]) == ValueOf(bits) + (if bit then Pow2(|bits|) else 0)
  {
    if bits != [] {
      assert (bits + [bit])[1..] == bits[1..] + [bit];
      ValueOfSnoc(bits[1..], bit);
    }
  }

  method AssembleOctet(bits: Bits) returns (value: Byte)
    requires |bits| == 8
    ensures value == ByteOf(bits)
  {
    var v: nat := 0;
    for k := 0 to 8
      invariant v == ValueOf(bits[..k])
    {
      assert bits[..k + 1] == bits[..k] + [bits[k]];
      ValueOfSnoc(bits[..k], bits[k]);
      v := v + if bits[k] then Pow2(k) else 0;
    }
    assert bits[..8] == bits;
    value := v as Byte;
  }

  lemma {:induction false} OctetAt(src: Bits, n: nat, k: nat)
    requires |src| == 8 * n && k < n
    ensures Octets(src, n)[k] == ByteOf(src[8 * k..8 * k + 8])
  {
    hide ByteOf, BitsLsb;
    if k > 0 {
      OctetAt(src[8..], n - 1, k - 1);
      assert src[8..][8 * (k - 1)..8 * (k - 1) + 8] == src[8 * k..8 * k + 8];
    }
  }

  method BitsToBytesLsb(src: Bits) returns (r: Result<Bytes, HdlcError>)
    ensures r == BitsToBytes(src)
  {
    hide Octets, ByteOf, BitsLsb;
    if |src| % 8 != 0 {
      return Err(PartialOctet);
    }
    var out: Bytes := [];
    var n := |src| / 8;
    for k := 0 to n
      invariant out == Octets(src, n)[..k]
    {
      var value := AssembleOctet(src[8 * k..8 * k + 8]);
      OctetAt(src, n, k);
      out := out + [value];
    }
    assert out == Octets(src, n);
    r := Ok(out);
  }

  /** `bits_to_bytes_lsb` rebuilds exactly the octets that were serialized, and
      rejects exactly the bit strings that are not a serialization. */
  lemma OctetsRoundTrip(bits: Bits, data: Bytes)
    ensures BitsToBytes(bits) == Ok(data) <==> bits == BitsLsb(data)
  {
    if bits == BitsLsb(data) {
      BitsLsbInjective(Octets(bits, |bits| / 8), data);
    }
  }

  // ---- NRZI: a zero bit changes the tone, a one bit holds it

  /** Tone selectors; `true` is SPACE and `false` is MARK. */
  type Selectors = seq<bool>
  const MARK := false
  const SPACE := true

  function NrziFrom(tone: bool, bits: Bits): (s: Selectors)
    ensures |s| == |bits|
    decreases |bits|
  {
    if bits == [] then [] else
      var next := if bits[0] then tone else !tone;
      [next] + NrziFrom(next, bits[1..])
  }

  function NrziDecodeFrom(previous: bool, s: Selectors): (bits: Bits)
    ensures |bits| == |s|
    decreases |s|
  {
    if s == [] then [] else [s[0] == previous] + NrziDecodeFrom(s[0], s[1..])
  }

  /** Every one bit keeps the tone before it and every zero bit changes it. */
  lemma {:induction false} NrziByTone(tone: bool, bits: Bits, i: nat)
    requires i < |bits|
    ensures NrziFrom(tone, bits)[i] == (if i == 0 then tone else NrziFrom(tone, bits)[i - 1]) <==> bits[i]
    decreases i
  {
    if i > 0 { NrziByTone(if bits[0] then tone else !tone, bits[1..], i - 1); }
  }

  method NrziEncode(bits: Bits, initialTone: bool) returns (out: Selectors)
    ensures out == NrziFrom(initialTone, bits)
  {
    out := [];
    var tone := initialTone;
    for i := 0 to |bits|
      invariant out + NrziFrom(tone, bits[i..]) == NrziFrom(initialTone, bits)
    {
      assert bits[i..][0] == bits[i] && bits[i..][1..] == bits[i + 1..];
      if !bits[i] {
        tone := !tone;
      }
      out := out + [tone];
    }
  }

  lemma NrziDecodeFirst(previous: bool, s: Selectors)
    requires s != []
    ensures NrziDecodeFrom(previous, s) == [s[0] == previous] + NrziDecodeFrom(s[0], s[1..])
  {
  }

  method NrziDecode(s: Selectors, initialTone: bool) returns (out: Bits)
    ensures out == NrziDecodeFrom(initialTone, s)
  {
    out := [];
    var previous := initialTone;
    for i := 0 to |s|
      invariant out + NrziDecodeFrom(previous, s[i..]) == NrziDecodeFrom(initialTone, s)
    {
      hide NrziDecodeFrom;
      NrziDecodeFirst(previous, s[i..]);
      assert s[i..][0] == s[i] && s[i..][1..] == s[i + 1..];
      out := out + [s[i] == previous];
      previous := s[i];
    }
  }

  /** Encoding and decoding from the same tone undo each other. */
  lemma {:induction false} NrziRoundTrip(tone: bool, bits: Bits, s: Selectors)
    ensures NrziDecodeFrom(tone, s) == bits <==> s == NrziFrom(tone, bits)
    decreases |bits|
  {
    if |s| != |bits| {
      assert NrziDecodeFrom(tone, s) != bits;
    } else if bits != [] {
      var next := if bits[0] then tone else !tone;
      NrziRoundTrip(next, bits[1..], s[1..]);
      var d, e := NrziDecodeFrom(tone, s), NrziFrom(tone, bits);
      assert d[0] == (s[0] == tone) && d[1..] == NrziDecodeFrom(s[0], s[1..]);
      assert e[0] == next && e[1..] == NrziFrom(next, bits[1..]);
      assert d == [d[0]] + d[1..] && e == [e[0]] + e[1..];
      assert s == [s[0]] + s[1..] && bits == [bits[0]] + bits[1..];
    }
  }

  function FrameToSelectors(frame: Bytes, preFlags: int, postFlags: int, tone: bool): Result<Selectors, HdlcError> {
    match HdlcBits(frame, preFlags, postFlags)
    case Ok(bits) => Ok(NrziFrom(tone, bits))
    case Err(e) => Err(e)
  }

  // ---- Packed selectors, most significant bit first

  /** Bit `0x80 >> k` of an octet. */
  predicate MsbBit(b: Byte, k: nat)
    requires k < 8
  {
    ByteBits(b)[7 - k]
  }

  lemma MsbBitIsDigit(b: Byte, k: nat)
    requires k < 8
    ensures MsbBit(b, k) <==> (b as int / Pow2(7 - k)) % 2 == 1
  {
    hide LowBits, Pow2;
    LowBitIsDigit(b as int, 8, 7 - k);
  }

  /** `b | (0x80 >> k)`. */
  function WithMsbBit(b: Byte, k: nat): (r: Byte)
    requires k < 8
    ensures forall j :: 0 <= j < 8 ==> MsbBit(r, j) == (j == k || MsbBit(b, j))
  {
    ByteRoundTrip(b, ByteBits(b)[7 - k := true]);
    ByteOf(ByteBits(b)[7 - k := true])
  }

  /** The selector carried by bit `i` of the packed octets. */
  predicate SelectorAt(packed: Bytes, i: nat)
    requires i < 8 * |packed|
  {
    MsbBit(packed[i / 8], i % 8)
  }

  /** `packed` is the wire form of `s`: the selectors in order, then zero bits
      up to a whole octet. */
  ghost predicate IsPacking(s: Selectors, packed: Bytes) {
    && |packed| == (|s| + 7) / 8
    && forall i :: 0 <= i < 8 * |packed| ==> SelectorAt(packed, i) == (i < |s| && s[i])
  }

  /** The bits of packed octet `j`, least significant first. */
  function OctetBits(s: Selectors, j: nat): (bits: Bits)
    ensures |bits| == 8
  {
    seq(8, k requires 0 <= k < 8 => 8 * j + 7 - k < |s| && s[8 * j + 7 - k])
  }

  /** The packed octets of a selector string. */
  function Pack(s: Selectors): (packed: Bytes)
    ensures |packed| == (|s| + 7) / 8
  {
    seq((|s| + 7) / 8, j requires 0 <= j < (|s| + 7) / 8 => ByteOf(OctetBits(s, j)))
  }

  lemma PackIsPacking(s: Selectors)
    ensures IsPacking(s, Pack(s))
  {
    hide ByteOf, ByteBits;
    var packed := Pack(s);
    forall i | 0 <= i < 8 * |packed| ensures SelectorAt(packed, i) == (i < |s| && s[i]) {
      var j, k := i / 8, 7 - i % 8;
      ByteRoundTrip(0, OctetBits(s, j));
      assert packed[j] == ByteOf(OctetBits(s, j));
      assert OctetBits(s, j)[k] == (i < |s| && s[i]) by { assert 8 * j + 7 - k == i; }
    }
  }

  lemma ZeroByteHasNoBits(k: nat)
    requires k < 8
    ensures !MsbBit(0, k)
  {
    ZeroBits(8, 7 - k);
  }

  lemma {:induction false} ZeroBits(n: nat, k: nat)
    requires k < n
    ensures !LowBits(0, n)[k]
  {
    if k > 0 { ZeroBits(n - 1, k - 1); }
  }

  method PackSelectors(s: Selectors) returns (packed: Bytes)
    ensures IsPacking(s, packed)
  {
    hide MsbBit, WithMsbBit;
    var out := new Byte[(|s| + 7) / 8](_ => 0);
    forall k | 0 <= k < 8 ensures !MsbBit(0, k) { ZeroByteHasNoBits(k); }
    for i := 0 to |s|
      invariant forall j :: 0 <= j < 8 * out.Length ==> MsbBit(out[j / 8], j % 8) == (j < i && s[j])
    {
      if s[i] {
        assert forall j :: 0 <= j < 8 * out.Length && j / 8 == i / 8 && j % 8 == i % 8 ==> j == i;
        out[i / 8] := WithMsbBit(out[i / 8], i % 8);
      }
    }
    packed := out[..];
  }

  function UnpackSelectors(packed: Bytes, count: int): Result<Selectors, HdlcError> {
    if count < 0 || count > 8 * |packed| then Err(BadSelectorCount)
    else Ok(seq(count, i requires 0 <= i < count => SelectorAt(packed, i)))
  }

  /** Unpacking a packing gives the selectors back, and the packing of any
      selector string is unique. */
  lemma PackingRoundTrip(s: Selectors, packed: Bytes, other: Bytes)
    requires IsPacking(s, packed)
    ensures UnpackSelectors(packed, |s|) == Ok(s)
    ensures IsPacking(s, other) ==> other == packed
  {
    hide SelectorAt;
    assert UnpackSelectors(packed, |s|).value == s;
    if IsPacking(s, other) {
      forall j | 0 <= j < |packed| ensures other[j] == packed[j] {
        assert forall i :: 8 * j <= i < 8 * j + 8 ==> SelectorAt(other, i) == SelectorAt(packed, i);
        OctetDetermined(other, packed, j);
      }
    }
  }

  lemma OctetDetermined(a: Bytes, b: Bytes, j: nat)
    requires j < |a| && j < |b| && forall i :: 8 * j <= i < 8 * j + 8 ==> SelectorAt(a, i) == SelectorAt(b, i)
    ensures a[j] == b[j]
  {
    hide ByteOf, LowBits;
    var x, y := ByteBits(a[j]), ByteBits(b[j]);
    forall k | 0 <= k < 8 ensures x[k] == y[k] {
      var i := 8 * j + (7 - k);
      assert i / 8 == j && i % 8 == 7 - k;
      assert SelectorAt(a, i) == SelectorAt(b, i);
    }
    assert x == y;
    ByteRoundTrip(a[j], x);
    ByteRoundTrip(b[j], y);
  }
}
