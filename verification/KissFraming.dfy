/** KISS framing: escaping, one-packet decoding, and the incremental decoder
    with bounded memory, which is proved to agree with one-packet decoding of
    every FEND-delimited segment under any chunking. */
module KissFraming {
  import opened Primitives

  const FEND: Byte := 0xC0
  const FESC: Byte := 0xDB
  const TFEND: Byte := 0xDC
  const TFESC: Byte := 0xDD

  datatype Message = Message(port: int, command: int, frame: Bytes)

  datatype KissError = BadPort | BadCommand | NotDelimited | BadEscape | UnexpectedFend | Truncated

  function TypeByte(port: int, command: int): Byte
    requires 0 <= port <= 15 && 0 <= command <= 15
  {
    (16 * port + command) as Byte
  }

  function Unpacked(raw: Bytes): Message
    requires raw != []
  {
    Message((raw[0] / 16) as int, (raw[0] % 16) as int, raw[1..])
  }

  function Escaped(body: Bytes): Bytes {
    if body == [] then []
    else EscapedByte(body[0]) + Escaped(body[1..])
  }

  predicate Encodable(m: Message) { 0 <= m.port <= 15 && 0 <= m.command <= 15 }

  function Encoding(m: Message): Bytes
    requires Encodable(m)
  {
    [FEND] + Escaped([TypeByte(m.port, m.command)] + m.frame) + [FEND]
  }

  function EscapedByte(b: Byte): Bytes {
    if b == FEND then [FESC, TFEND] else if b == FESC then [FESC, TFESC] else [b]
  }

  method Escape(body: Bytes) returns (escaped: Bytes)
    ensures escaped == Escaped(body)
  {
    hide EscapedByte;
    escaped := [];
    for i := 0 to |body|
      invariant escaped + Escaped(body[i..]) == Escaped(body)
    {
      assert body[i..][0] == body[i] && body[i..][1..] == body[i + 1..];
      escaped := escaped + EscapedByte(body[i]);
    }
  }

  method Encode(frame: Bytes, port: int, command: int) returns (r: Result<Bytes, KissError>)
    ensures r == if !(0 <= port <= 15) then Err(BadPort)
                 else if !(0 <= command <= 15) then Err(BadCommand)
                 else Ok(Encoding(Message(port, command, frame)))
  {
    if !(0 <= port <= 15) {
      return Err(BadPort);
    }
    if !(0 <= command <= 15) {
      return Err(BadCommand);
    }
    var escaped := Escape([TypeByte(port, command)] + frame);
    r := Ok([FEND] + escaped + [FEND]);
  }

  /** Undoes escaping, given what was recovered so far. */
  function Unescaped(raw: Bytes, escaped: bool, bytes: Bytes): Result<Bytes, KissError>
    decreases |bytes|
  {
    if bytes == [] then (if escaped then Err(Truncated) else Ok(raw))
    else if escaped then
      (if bytes[0] == TFEND then Unescaped(raw + [FEND], false, bytes[1..])
       else if bytes[0] == TFESC then Unescaped(raw + [FESC], false, bytes[1..])
       else Err(BadEscape))
    else if bytes[0] == FESC then Unescaped(raw, true, bytes[1..])
    else if bytes[0] == FEND then Err(UnexpectedFend)
    else Unescaped(raw + [bytes[0]], false, bytes[1..])
  }

  function Decoded(packet: Bytes): Result<Message, KissError> {
    var n := |packet|;
    if n < 3 || packet[0] != FEND || packet[n - 1] != FEND then Err(NotDelimited) else
      match Unescaped([], false, packet[1..n - 1])
      case Err(e) => Err(e)
      case Ok(raw) => if raw == [] then Err(Truncated) else Ok(Unpacked(raw))
  }

  method Decode(packet: Bytes) returns (r: Result<Message, KissError>)
    ensures r == Decoded(packet)
  {
    var n := |packet|;
    if n < 3 || packet[0] != FEND || packet[n - 1] != FEND {
      return Err(NotDelimited);
    }
    var inner := packet[1..n - 1];
    var raw: Bytes := [];
    var escaped := false;
    assert inner[0..] == inner;
    for i := 0 to |inner|
      invariant Unescaped(raw, escaped, inner[i..]) == Unescaped([], false, inner)
    {
      var byte := inner[i];
      assert inner[i..][0] == byte && inner[i..][1..] == inner[i + 1..];
      if escaped {
        if byte == TFEND {
          raw := raw + [FEND];
        } else if byte == TFESC {
          raw := raw + [FESC];
        } else {
          return Err(BadEscape);
        }
        escaped := false;
      } else if byte == FESC {
        escaped := true;
      } else if byte == FEND {
        return Err(UnexpectedFend);
      } else {
        raw := raw + [byte];
      }
    }
    r := if escaped || raw == [] then Err(Truncated) else Ok(Unpacked(raw));
  }

  // ---- What is on the wire

  /** What un-escaping recovers escapes back to what it was given. */
  lemma {:induction false} UnescapedEscapes(raw: Bytes, escaped: bool, bytes: Bytes)
    requires Unescaped(raw, escaped, bytes).Ok?
    ensures var full := Unescaped(raw, escaped, bytes).value;
            raw <= full && Escaped(full[|raw|..]) == (if escaped then [FESC] else []) + bytes
    decreases |bytes|
  {
    hide EscapedByte, Escaped;
    if bytes == [] {
      assert raw[|raw|..] == [];
      EscapedFirst([]);
    } else if escaped {
      var b := if bytes[0] == TFEND then FEND else FESC;
      UnescapedEscapes(raw + [b], false, bytes[1..]);
      OneRecovered(raw, b, Unescaped(raw, escaped, bytes).value);
      assert EscapedByte(b) + bytes[1..] == [FESC] + bytes by { EscapedOctets(b); }
    } else if bytes[0] == FESC {
      UnescapedEscapes(raw, true, bytes[1..]);
      assert [FESC] + bytes[1..] == bytes;
    } else {
      UnescapedEscapes(raw + [bytes[0]], false, bytes[1..]);
      OneRecovered(raw, bytes[0], Unescaped(raw, escaped, bytes).value);
      assert EscapedByte(bytes[0]) + bytes[1..] == bytes by { EscapedOctets(bytes[0]); }
    }
  }

  lemma EscapedFirst(body: Bytes)
    ensures Escaped(body) == if body == [] then [] else EscapedByte(body[0]) + Escaped(body[1..])
  {
    hide EscapedByte;
  }

  lemma OneRecovered(raw: Bytes, b: Byte, full: Bytes)
    requires raw + [b] <= full
    ensures raw <= full && Escaped(full[|raw|..]) == EscapedByte(b) + Escaped(full[|raw + [b]|..])
  {
    hide EscapedByte, Escaped;
    EscapedFirst(full[|raw|..]);
    assert full[|raw|..][1..] == full[|raw + [b]|..];
  }

  /** The two octets with a meaning of their own, and their escapes. */
  lemma EscapedOctets(b: Byte)
    ensures EscapedByte(b) == if b == 0xC0 then [0xDB, 0xDC] else if b == 0xDB then [0xDB, 0xDD] else [b]
  {
  }

  /** Decoding accepts exactly the encodings: no packet is decoded to anything
      that would not have been sent as that packet. */
  lemma DecodeAcceptsExactly(packet: Bytes, m: Message)
    ensures Decoded(packet) == Ok(m) <==> Encodable(m) && Encoding(m) == packet
  {
    hide Escaped, Unescaped;
    if Decoded(packet) == Ok(m) {
      var inner := packet[1..|packet| - 1];
      UnescapedEscapes([], false, inner);
      var raw := Unescaped([], false, inner).value;
      assert raw[0..] == raw && [] + inner == inner;
      assert raw == [TypeByte(m.port, m.command)] + m.frame;
      assert packet == [FEND] + inner + [FEND];
    }
    if Encodable(m) && Encoding(m) == packet {
      DecodeInvertsEncode(m);
    }
  }

  /** The octets around and before the frame. */
  lemma WireLayout(m: Message)
    requires Encodable(m)
    ensures var e := Encoding(m);
            && |e| >= 3 && e[0] == 0xC0 && e[|e| - 1] == 0xC0
            && e[1..|e| - 1] == EscapedByte((16 * m.port + m.command) as Byte) + Escaped(m.frame)
            && 0xC0 !in e[1..|e| - 1]
  {
    hide EscapedByte, Escaped;
    var body := [TypeByte(m.port, m.command)] + m.frame;
    EscapedFirst(body);
    assert body[1..] == m.frame;
    EscapedOctets(body[0]);
    var e := Encoding(m);
    assert e[1..|e| - 1] == Escaped(body);
    NoFendInside(body);
  }

  lemma {:induction false} NoFendInside(body: Bytes)
    ensures FEND !in Escaped(body)
  {
    hide EscapedByte;
    if body != [] {
      EscapedOctets(body[0]);
      NoFendInside(body[1..]);
    }
  }

  // ---- The incremental decoder

  datatype Decoder = Decoder(raw: Bytes, escaped: bool, discard: bool, discarded: nat)

  function Reset(d: Decoder): Decoder { Decoder([], false, false, d.discarded) }

  function Discarding(d: Decoder): Decoder { d.(discard := true, discarded := d.discarded + 1) }

  function Appended(d: Decoder, byte: Byte, max: nat): Decoder {
    if |d.raw| >= max then Discarding(d) else d.(raw := d.raw + [byte])
  }

  function Step(d: Decoder, byte: Byte, max: nat): (Decoder, seq<Message>) {
    if byte == FEND then
      if d.raw != [] && !d.discard && !d.escaped then (Reset(d), [Unpacked(d.raw)])
      else if d.escaped && !d.discard then (Reset(Discarding(d)), [])
      else (Reset(d), [])
    else if d.discard then (d, [])
    else if d.escaped then
      var d' := if byte == TFEND then Appended(d, FEND, max)
                else if byte == TFESC then Appended(d, FESC, max)
                else Discarding(d);
      (d'.(escaped := false), [])
    else if byte == FESC then (d.(escaped := true), [])
    else (Appended(d, byte, max), [])
  }

  function Fed(d: Decoder, data: Bytes, max: nat): (Decoder, seq<Message>)
    decreases |data|
  {
    if data == [] then (d, []) else
      var (d1, first) := Step(d, data[0], max);
      var (d2, rest) := Fed(d1, data[1..], max);
      (d2, first + rest)
  }

  class KISSStreamDecoder {
    const max: nat
    var raw: Bytes
    var escaped: bool
    var discard: bool
    var discarded: nat

    /** Memory is bounded by the configured body size. */
    ghost predicate Valid()
      reads this
    {
      max >= 1 && |raw| <= max
    }

    ghost function View(): Decoder
      reads this
    {
      Decoder(raw, escaped, discard, discarded)
    }

    constructor (max: nat)
      requires max >= 1
      ensures Valid() && this.max == max && View() == Decoder([], false, false, 0)
    {
      this.max := max;
      raw, escaped, discard, discarded := [], false, false, 0;
    }

    method ResetState()
      modifies this
      ensures View() == Reset(old(View()))
    {
      raw, escaped, discard := [], false, false;
    }

    method Append(byte: Byte)
      modifies this
      ensures View() == Appended(old(View()), byte, max)
    {
      if |raw| >= max {
        discard := true;
        discarded := discarded + 1;
        return;
      }
      raw := raw + [byte];
    }

    method FeedByte(byte: Byte) returns (out: seq<Message>)
      requires Valid()
      modifies this
      ensures Valid() && (View(), out) == Step(old(View()), byte, max)
    {
      out := [];
      if byte == FEND {
        if raw != [] && !discard && !escaped {
          out := [Unpacked(raw)];
        } else if escaped && !discard {
          discarded := discarded + 1;
        }
        ResetState();
      } else if discard {
      } else if escaped {
        if byte == TFEND {
          Append(FEND);
        } else if byte == TFESC {
          Append(FESC);
        } else {
          discard := true;
          discarded := discarded + 1;
        }
        escaped := false;
      } else if byte == FESC {
        escaped := true;
      } else {
        Append(byte);
      }
    }

    method Feed(data: Bytes) returns (out: seq<Message>)
      requires Valid()
      modifies this
      ensures Valid() && (View(), out) == Fed(old(View()), data, max)
    {
      hide Step;
      out := [];
      assert data[0..] == data && [] + Fed(View(), data, max).1 == Fed(View(), data, max).1;
      for i := 0 to |data|
        invariant Valid()
        invariant var (d, rest) := Fed(View(), data[i..], max); (d, out + rest) == Fed(old(View()), data, max)
      {
        assert data[i..][0] == data[i] && data[i..][1..] == data[i + 1..];
        ghost var before, soFar := View(), out;
        var more := FeedByte(data[i]);
        out := out + more;
        assert soFar + (more + Fed(View(), data[i + 1..], max).1) == out + Fed(View(), data[i + 1..], max).1;
      }
      assert out + [] == out;
    }
  }

  // ---- Agreement with one-packet decoding

  /** What one FEND-delimited segment should produce: a message, a discard, or
      nothing if it is empty. */
  datatype Verdict = Nothing | Deliver(message: Message) | Discard

  function Judged(raw: Bytes, escaped: bool, segment: Bytes, max: nat): Verdict {
    match Unescaped(raw, escaped, segment)
    case Err(_) => Discard
    case Ok(body) => if body == [] then Nothing else if |body| <= max then Deliver(Unpacked(body)) else Discard
  }

  /** A segment judged by decoding it as a packet of its own. */
  function Verdict1(segment: Bytes, max: nat): Verdict {
    if segment == [] then Nothing else
      match Decoded([FEND] + segment + [FEND])
      case Err(_) => Discard
      case Ok(m) => if 1 + |m.frame| <= max then Deliver(m) else Discard
  }

  lemma JudgedIsDecoded(segment: Bytes, max: nat)
    ensures Judged([], false, segment, max) == Verdict1(segment, max)
  {
    var packet := [FEND] + segment + [FEND];
    assert packet[1..|packet| - 1] == segment;
    if segment != [] { UnescapedNonEmpty([], false, segment); }
  }

  lemma {:induction false} UnescapedNonEmpty(raw: Bytes, escaped: bool, bytes: Bytes)
    ensures raw != [] || escaped || bytes != [] ==> Unescaped(raw, escaped, bytes) != Ok([])
    ensures var r := Unescaped(raw, escaped, bytes); r.Ok? ==> |r.value| >= |raw|
    decreases |bytes|
  {
    if bytes != [] {
      UnescapedNonEmpty(raw, true, bytes[1..]);
      UnescapedNonEmpty(raw + [FEND], false, bytes[1..]);
      UnescapedNonEmpty(raw + [FESC], false, bytes[1..]);
      UnescapedNonEmpty(raw + [bytes[0]], false, bytes[1..]);
    }
  }

  function After(d: nat, v: Verdict): Decoder { Decoder([], false, false, if v == Discard then d + 1 else d) }
  function Said(v: Verdict): seq<Message> { if v.Deliver? then [v.message] else [] }

  lemma FedOne(d: Decoder, byte: Byte, max: nat)
    ensures Fed(d, [byte], max) == Step(d, byte, max)
  {
    hide Step;
    var (d1, m) := Step(d, byte, max);
    assert Fed(d1, [byte][1..], max) == (d1, []) && m + [] == m;
  }

  /** A discarding decoder ignores everything up to the next FEND. */
  lemma {:induction false} DiscardingSkips(d: Decoder, segment: Bytes, max: nat)
    requires d.discard && FEND !in segment
    ensures Fed(d, segment + [FEND], max) == (Reset(d), [])
    decreases |segment|
  {
    var data := segment + [FEND];
    if segment == [] {
      assert data == [FEND];
      FedOne(d, FEND, max);
    } else {
      assert data[1..] == segment[1..] + [FEND];
      DiscardingSkips(d, segment[1..], max);
    }
  }

  lemma {:induction false} SegmentJudged(raw: Bytes, escaped: bool, n: nat, segment: Bytes, max: nat)
    requires FEND !in segment && |raw| <= max
    ensures var v := Judged(raw, escaped, segment, max);
            Fed(Decoder(raw, escaped, false, n), segment + [FEND], max) == (After(n, v), Said(v))
    decreases |segment|
  {
    var d := Decoder(raw, escaped, false, n);
    var data := segment + [FEND];
    if segment == [] {
      assert data == [FEND];
      FedOne(d, FEND, max);
    } else {
      assert data[0] == segment[0] && data[1..] == segment[1..] + [FEND];
      assert segment[0] != FEND && FEND !in segment[1..];
      var d1 := Step(d, segment[0], max).0;
      var later := Fed(d1, data[1..], max).1;
      assert [] + later == later;
      if d1.discard {
        DiscardingSkips(d1, segment[1..], max);
        Overflow(raw, escaped, segment, max);
      } else {
        SegmentJudged(d1.raw, d1.escaped, n, segment[1..], max);
      }
    }
  }

  lemma Overflow(raw: Bytes, escaped: bool, segment: Bytes, max: nat)
    requires segment != [] && segment[0] != FEND && |raw| <= max
    requires Step(Decoder(raw, escaped, false, 0), segment[0], max).0.discard
    ensures Judged(raw, escaped, segment, max) == Discard
  {
    UnescapedNonEmpty(raw + [FEND], false, segment[1..]);
    UnescapedNonEmpty(raw + [FESC], false, segment[1..]);
    UnescapedNonEmpty(raw + [segment[0]], false, segment[1..]);
  }

  /** The index of the first FEND, or the length if there is none. */
  function FirstFend(data: Bytes): (i: nat)
    ensures i <= |data| && FEND !in data[..i] && (i < |data| ==> data[i] == FEND)
  {
    if data == [] || data[0] == FEND then 0 else
      var i := 1 + FirstFend(data[1..]);
      assert data[..i] == [data[0]] + data[1..][..i - 1];
      i
  }

  /** The verdicts on the FEND-terminated segments of a stream, in order. */
  function Verdicts(data: Bytes, max: nat): seq<Verdict>
    decreases |data|
  {
    var i := FirstFend(data);
    if i == |data| then [] else [Verdict1(data[..i], max)] + Verdicts(data[i + 1..], max)
  }

  function Messages(vs: seq<Verdict>): seq<Message> { if vs == [] then [] else Said(vs[0]) + Messages(vs[1..]) }

  function Discards(vs: seq<Verdict>): nat {
    if vs == [] then 0 else (if vs[0] == Discard then 1 else 0) + Discards(vs[1..])
  }

  lemma {:induction false} FedConcat(d: Decoder, a: Bytes, b: Bytes, max: nat)
    ensures var (d1, m1) := Fed(d, a, max);
            var (d2, m2) := Fed(d1, b, max);
            Fed(d, a + b, max) == (d2, m1 + m2)
    decreases |a|
  {
    hide Step;
    if a == [] {
      assert a + b == b;
      assert [] + Fed(d, b, max).1 == Fed(d, b, max).1;
    } else {
      assert (a + b)[1..] == a[1..] + b;
      var (d0, first) := Step(d, a[0], max);
      FedConcat(d0, a[1..], b, max);
      var (d1, m1) := Fed(d0, a[1..], max);
      var m2 := Fed(d1, b, max).1;
      assert first + (m1 + m2) == (first + m1) + m2;
    }
  }

  lemma {:induction false} QuietWithoutFend(d: Decoder, data: Bytes, max: nat)
    requires FEND !in data
    ensures Fed(d, data, max).1 == []
    decreases |data|
  {
    if data != [] { QuietWithoutFend(Step(d, data[0], max).0, data[1..], max); }
  }

  /** However a byte stream is cut into `feed` calls (`Fed` composes by
      `FedConcat`), the messages are those of decoding each FEND-terminated
      segment as a packet of its own; and whenever the stream ends in FEND, the
      discard counter has grown by exactly the undeliverable segments. */
  lemma {:induction false} StreamIsBatch(n: nat, data: Bytes, max: nat)
    ensures var (d, messages) := Fed(Decoder([], false, false, n), data, max);
            && messages == Messages(Verdicts(data, max))
            && (data == [] || data[|data| - 1] == FEND ==>
                  d == Decoder([], false, false, n + Discards(Verdicts(data, max))))
    decreases |data|
  {
    hide Fed, Verdict1, Judged, Verdicts, Messages, Discards;
    var start := Decoder([], false, false, n);
    var i := FirstFend(data);
    if i == |data| {
      OnlyATail(n, data, max);
    } else {
      var segment, rest := data[..i], data[i + 1..];
      assert data == (segment + [FEND]) + rest;
      assert rest != [] ==> rest[|rest| - 1] == data[|data| - 1];
      SegmentJudged([], false, n, segment, max);
      JudgedIsDecoded(segment, max);
      StreamIsBatch(After(n, Verdict1(segment, max)).discarded, rest, max);
      FedConcat(start, segment + [FEND], rest, max);
      FirstVerdict(data, max);
    }
  }

  lemma OnlyATail(n: nat, data: Bytes, max: nat)
    requires FirstFend(data) == |data|
    ensures Verdicts(data, max) == [] && Messages([]) == [] && Discards([]) == 0
    ensures Fed(Decoder([], false, false, n), data, max).1 == []
    ensures data == [] || data[|data| - 1] == FEND ==>
              Fed(Decoder([], false, false, n), data, max).0 == Decoder([], false, false, n)
  {
    assert data[..|data|] == data;
    QuietWithoutFend(Decoder([], false, false, n), data, max);
  }

  lemma FirstVerdict(data: Bytes, max: nat)
    requires FirstFend(data) < |data|
    ensures var i := FirstFend(data);
            var v, rest := Verdict1(data[..i], max), Verdicts(data[i + 1..], max);
            && Messages(Verdicts(data, max)) == Said(v) + Messages(rest)
            && Discards(Verdicts(data, max)) == (if v == Discard then 1 else 0) + Discards(rest)
  {
    hide Verdict1, Messages, Discards, Verdicts;
    var i := FirstFend(data);
    var v, rest := Verdict1(data[..i], max), Verdicts(data[i + 1..], max);
    assert Verdicts(data, max) == [v] + rest by { VerdictsUnfold(data, max); }
    VerdictCons(v, rest);
  }

  lemma VerdictsUnfold(data: Bytes, max: nat)
    requires FirstFend(data) < |data|
    ensures var i := FirstFend(data); Verdicts(data, max) == [Verdict1(data[..i], max)] + Verdicts(data[i + 1..], max)
  {
    hide Verdict1, FirstFend;
  }

  lemma VerdictCons(v: Verdict, vs: seq<Verdict>)
    ensures Messages([v] + vs) == Said(v) + Messages(vs)
    ensures Discards([v] + vs) == (if v == Discard then 1 else 0) + Discards(vs)
  {
    hide Said;
    assert ([v] + vs)[1..] == vs;
  }

  /** How many FENDs in `data` end a non-empty segment; `empty` tells whether
      the segment under way has no byte yet. */
  function Segments(data: Bytes, empty: bool): nat
    decreases |data|
  {
    if data == [] then 0
    else if data[0] == FEND then (if empty then 0 else 1) + Segments(data[1..], true)
    else Segments(data[1..], false)
  }

  lemma {:induction false} OneSegment(segment: Bytes, rest: Bytes, empty: bool)
    requires FEND !in segment
    ensures Segments(segment + [FEND] + rest, empty)
         == (if empty && segment == [] then 0 else 1) + Segments(rest, true)
    decreases |segment|
  {
    var data := segment + [FEND] + rest;
    if segment == [] {
      assert data[0] == FEND && data[1..] == rest;
    } else {
      assert data[0] == segment[0] && data[1..] == segment[1..] + [FEND] + rest;
      OneSegment(segment[1..], rest, false);
    }
  }

  lemma {:induction false} NoSegment(data: Bytes, empty: bool)
    requires FEND !in data
    ensures Segments(data, empty) == 0
    decreases |data|
  {
    if data != [] {
      NoSegment(data[1..], false);
    }
  }

  lemma VerdictNothing(segment: Bytes, max: nat)
    ensures Verdict1(segment, max) == Nothing <==> segment == []
  {
  }

  lemma {:induction false} SegmentsAreJudged(data: Bytes, max: nat)
    ensures Segments(data, true) == |Messages(Verdicts(data, max))| + Discards(Verdicts(data, max))
    decreases |data|
  {
    hide Verdict1, Verdicts, Messages, Discards, Segments;
    var i := FirstFend(data);
    if i == |data| {
      OnlyATail(0, data, max);
      assert data[..i] == data;
      NoSegment(data, true);
    } else {
      var segment, rest := data[..i], data[i + 1..];
      assert data == segment + [FEND] + rest;
      OneSegment(segment, rest, true);
      VerdictNothing(segment, max);
      SegmentsAreJudged(rest, max);
      FirstVerdict(data, max);
    }
  }

  /** Conservation at every FEND: of any byte stream, however cut into chunks,
      each non-empty segment has been delivered as a message or has grown the
      discard counter by one, and nothing was counted twice. */
  lemma NoneLostNoneCountedTwice(n: nat, data: Bytes, max: nat)
    requires data == [] || data[|data| - 1] == FEND
    ensures var (d, messages) := Fed(Decoder([], false, false, n), data, max);
            Segments(data, true) == |messages| + d.discarded - n
  {
    hide Fed, Messages, Discards, Verdicts, Segments;
    StreamIsBatch(n, data, max);
    SegmentsAreJudged(data, max);
  }

  // ---- Round trip

  lemma {:induction false} UnescapeInvertsEscape(raw: Bytes, body: Bytes)
    ensures Unescaped(raw, false, Escaped(body)) == Ok(raw + body)
    ensures FEND !in Escaped(body)
    decreases |body|
  {
    if body == [] {
      assert raw + body == raw;
    } else {
      var e, rest := Escaped(body), Escaped(body[1..]);
      assert raw + body == (raw + [body[0]]) + body[1..];
      UnescapeInvertsEscape(raw + [body[0]], body[1..]);
      if body[0] == FEND || body[0] == FESC {
        assert e[1..][1..] == rest;
      } else {
        assert e[1..] == rest;
      }
    }
  }

  lemma DecodeInvertsEncode(m: Message)
    requires Encodable(m)
    ensures Decoded(Encoding(m)) == Ok(m)
  {
    var body := [TypeByte(m.port, m.command)] + m.frame;
    UnescapeInvertsEscape([], body);
    assert [] + body == body;
    var packet := Encoding(m);
    assert packet[1..|packet| - 1] == Escaped(body);
    assert Unpacked(body) == m by { assert body[1..] == m.frame; }
  }

  function Encodings(ms: seq<Message>): Bytes
    requires forall i :: 0 <= i < |ms| ==> Encodable(ms[i])
  {
    if ms == [] then [] else Encoding(ms[0]) + Encodings(ms[1..])
  }

  function Fitting(ms: seq<Message>, max: nat): (fit: seq<Message>)
    ensures |fit| <= |ms|
  {
    if ms == [] then [] else (if 1 + |ms[0].frame| <= max then [ms[0]] else []) + Fitting(ms[1..], max)
  }

  /** Concatenated encodings come back in order, exactly those whose body fits
      the decoder's memory bound; each of the others is counted once. */
  lemma {:induction false} EncodedStreamRoundTrip(n: nat, ms: seq<Message>, max: nat)
    requires forall i :: 0 <= i < |ms| ==> Encodable(ms[i])
    ensures Fed(Decoder([], false, false, n), Encodings(ms), max)
         == (Decoder([], false, false, n + |ms| - |Fitting(ms, max)|), Fitting(ms, max))
    decreases |ms|
  {
    hide Encoding, Encodable;
    if ms != [] {
      var start := Decoder([], false, false, n);
      OneEncoding(n, ms[0], max);
      var d := Fed(start, Encoding(ms[0]), max).0;
      EncodedStreamRoundTrip(d.discarded, ms[1..], max);
      FedConcat(start, Encoding(ms[0]), Encodings(ms[1..]), max);
    }
  }

  lemma OneEncoding(n: nat, m: Message, max: nat)
    requires Encodable(m)
    ensures Fed(Decoder([], false, false, n), Encoding(m), max)
         == if 1 + |m.frame| <= max then (Decoder([], false, false, n), [m])
            else (Decoder([], false, false, n + 1), [])
  {
    hide Step, Fed;
    var start := Decoder([], false, false, n);
    var body := [TypeByte(m.port, m.command)] + m.frame;
    UnescapeInvertsEscape([], body);
    assert [] + body == body;
    assert Unpacked(body) == m by { assert body[1..] == m.frame; }
    assert [] + [FEND] == [FEND];
    SegmentJudged([], false, n, [], max);
    SegmentJudged([], false, n, Escaped(body), max);
    assert Encoding(m) == [FEND] + (Escaped(body) + [FEND]);
    FedConcat(start, [FEND], Escaped(body) + [FEND], max);
    var v := Judged([], false, Escaped(body), max);
    assert v == if |body| <= max then Deliver(m) else Discard;
    assert [] + Said(v) == Said(v);
  }
}
