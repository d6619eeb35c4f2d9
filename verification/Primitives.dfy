/** Shared vocabulary: outcomes of operations that may raise, octets, and the
    least-significant-bit-first order in which HDLC transmits an octet. */
module Primitives {

  datatype Option<+T> = None | Some(value: T)

  /** `Err` stands for the exception that the operation raises. */
  datatype Result<+T, +E> = Ok(value: T) | Err(error: E)

  newtype Byte = b: int | 0 <= b < 256
  type Bytes = seq<Byte>

  /** Bits in transmission order; `true` is a one bit. */
  type Bits = seq<bool>

  function Pow2(n: nat): (p: nat)
    ensures p >= 1
  {
    if n == 0 then 1 else 2 * Pow2(n - 1)
  }

  /** The low `n` bits of `v`, least significant first. */
  function LowBits(v: nat, n: nat): (bits: Bits)
    ensures |bits| == n
    decreases n
  {
    if n == 0 then [] else [v % 2 == 1] + LowBits(v / 2, n - 1)
  }

  function ValueOf(bits: Bits): (v: nat)
    ensures v < Pow2(|bits|)
  {
    if bits == [] then 0 else (if bits[0] then 1 else 0) + 2 * ValueOf(bits[1..])
  }

  lemma {:induction false} ValueOfLowBits(v: nat, n: nat)
    requires v < Pow2(n)
    ensures ValueOf(LowBits(v, n)) == v
    decreases n
  {
    if n > 0 {
      assert LowBits(v, n)[1..] == LowBits(v / 2, n - 1);
      ValueOfLowBits(v / 2, n - 1);
    }
  }

  lemma {:induction false} LowBitsOfValue(bits: Bits)
    ensures LowBits(ValueOf(bits), |bits|) == bits
  {
    if bits != [] {
      LowBitsOfValue(bits[1..]);
      assert ValueOf(bits) / 2 == ValueOf(bits[1..]);
    }
  }

  /** Bit `i` is the digit of weight two to the `i`. */
  lemma {:induction false} LowBitIsDigit(v: nat, n: nat, i: nat)
    requires i < n
    ensures LowBits(v, n)[i] <==> (v / Pow2(i)) % 2 == 1
    decreases n
  {
    if i > 0 {
      LowBitIsDigit(v / 2, n - 1, i - 1);
      HalfThenDivide(v, Pow2(i - 1));
    }
  }

  /** The first `j` bits are the number modulo two to the `j`. */
  lemma {:induction false} PrefixIsNumber(v: nat, n: nat, j: nat)
    requires j <= n
    ensures ValueOf(LowBits(v, n)[0..j]) == v % Pow2(j)
    decreases n
  {
    if j > 0 {
      assert LowBits(v, n)[0..j][1..] == LowBits(v / 2, n - 1)[0..j - 1];
      PrefixIsNumber(v / 2, n - 1, j - 1);
      HalfThenRest(v, Pow2(j - 1));
    }
  }

  /** A run of bits is the number between two powers of two. */
  lemma {:induction false} SliceIsNumber(v: nat, n: nat, i: nat, j: nat)
    requires i <= j <= n
    ensures ValueOf(LowBits(v, n)[i..j]) == (v / Pow2(i)) % Pow2(j - i)
    decreases n
  {
    hide ValueOf;
    if i > 0 {
      assert LowBits(v, n)[i..j] == LowBits(v / 2, n - 1)[i - 1..j - 1];
      SliceIsNumber(v / 2, n - 1, i - 1, j - 1);
      HalfThenDivide(v, Pow2(i - 1));
    } else {
      PrefixIsNumber(v, n, j);
      assert v / Pow2(0) == v;
    }
  }

  lemma HalfThenRest(v: nat, p: nat)
    requires p >= 1
    ensures v % 2 + 2 * (v / 2 % p) == v % (2 * p)
  {
    var q, r := v / 2 / p, v / 2 % p;
    assert v == (2 * p) * q + (2 * r + v % 2) by { assert v / 2 == p * q + r; }
    QuotientIs(v, 2 * p, q, 2 * r + v % 2);
    assert v == (2 * p) * (v / (2 * p)) + v % (2 * p);
  }

  lemma HalfThenDivide(v: nat, p: nat)
    requires p >= 1
    ensures v / 2 / p == v / (2 * p)
  {
    var a, b := v / 2 / p, v / 2 % p;
    assert v == (2 * p) * a + (2 * b + v % 2) by { assert v / 2 == p * a + b; }
    QuotientIs(v, 2 * p, a, 2 * b + v % 2);
  }

  lemma QuotientIs(v: nat, d: nat, q: nat, r: nat)
    requires d >= 1 && v == d * q + r && r < d
    ensures v / d == q
  {
    var q', r' := v / d, v % d;
    assert v == d * q' + r';
    if q' < q {
      Multiples(d, q', q);
    } else if q' > q {
      Multiples(d, q, q');
    }
  }

  lemma Multiples(d: nat, q: nat, q': nat)
    requires q < q'
    ensures d * q + d <= d * q'
  {
    assert d * q' == d * q + d * (q' - q);
    assert d * (q' - q) == d + d * (q' - q - 1);
  }

  /** The eight bits of an octet, least significant first. */
  function ByteBits(b: Byte): (bits: Bits)
    ensures |bits| == 8
  {
    LowBits(b as int, 8)
  }

  lemma Powers()
    ensures Pow2(0) == 1 && Pow2(1) == 2 && Pow2(2) == 4 && Pow2(3) == 8
    ensures Pow2(4) == 16 && Pow2(5) == 32 && Pow2(6) == 64 && Pow2(7) == 128
  {
    assert Pow2(3) == 8;
    assert Pow2(5) == 32;
  }

  /** Bit `i` of an octet, and a run of its bits. */
  lemma OctetDigit(c: Byte, i: nat, weight: nat)
    requires i < 8 && weight == Pow2(i)
    ensures ByteBits(c)[i] <==> (c as int / weight) % 2 == 1
  {
    LowBitIsDigit(c as int, 8, i);
  }

  lemma OctetField(c: Byte, i: nat, j: nat, low: nat, width: nat)
    requires i <= j <= 8 && low == Pow2(i) && width == Pow2(j - i)
    ensures ValueOf(ByteBits(c)[i..j]) == (c as int / low) % width
  {
    SliceIsNumber(c as int, 8, i, j);
  }

  function ByteOf(bits: Bits): (b: Byte)
    requires |bits| == 8
  {
    assert Pow2(8) == 256 by { assert Pow2(4) == 16; }
    ValueOf(bits) as Byte
  }

  lemma ByteRoundTrip(b: Byte, bits: Bits)
    requires |bits| == 8
    ensures ByteOf(ByteBits(b)) == b
    ensures ByteBits(ByteOf(bits)) == bits
  {
    assert Pow2(8) == 256 by { assert Pow2(4) == 16; }
    ValueOfLowBits(b as int, 8);
    LowBitsOfValue(bits);
  }

  /** Every octet of `data` least significant bit first. */
  function BitsLsb(data: Bytes): (bits: Bits)
    ensures |bits| == 8 * |data|
  {
    if data == [] then [] else ByteBits(data[0]) + BitsLsb(data[1..])
  }

  lemma {:induction false} BitsLsbConcat(a: Bytes, b: Bytes)
    ensures BitsLsb(a + b) == BitsLsb(a) + BitsLsb(b)
  {
    if a == [] {
      assert a + b == b;
    } else {
      assert (a + b)[1..] == a[1..] + b;
      BitsLsbConcat(a[1..], b);
    }
  }

  /** The bits of a byte string determine it. */
  lemma {:induction false} BitsLsbInjective(a: Bytes, b: Bytes)
    requires BitsLsb(a) == BitsLsb(b)
    ensures a == b
  {
    assert |a| == |b|;
    if a != [] {
      assert BitsLsb(a)[..8] == ByteBits(a[0]) && BitsLsb(b)[..8] == ByteBits(b[0]);
      assert BitsLsb(a)[8..] == BitsLsb(a[1..]) && BitsLsb(b)[8..] == BitsLsb(b[1..]);
      ByteRoundTrip(a[0], ByteBits(a[0]));
      ByteRoundTrip(b[0], ByteBits(b[0]));
      BitsLsbInjective(a[1..], b[1..]);
    }
  }
}
