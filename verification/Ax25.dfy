/** AX.25 addresses and frames: the shifted seven-octet address field, the
    address list, and parsing and building of modulo-8 frames. */
module Ax25 {
  import opened Primitives
  import opened Fcs

  datatype Address = Address(callsign: string, ssid: int, flag: bool)

  datatype Ax25Error =
    | FieldLength | UnshiftedCallsign | ReservedBits | CallsignCharacters | EmptyCallsign
    | TruncatedList | ListTooLong | TooFewAddresses
    | BadPid | BadFcs | TooShort | NoControl | NoPid

  // ---- One address field

  predicate Plain(c: char) { '0' <= c <= '9' || 'A' <= c <= 'Z' }

  function Upper(c: char): char { if 'a' <= c <= 'z' then c - 'a' + 'A' else c }

  function Uppered(s: string): (u: string)
    ensures |u| == |s|
  {
    seq(|s|, i requires 0 <= i < |s| => Upper(s[i]))
  }

  function Justified(s: string): (j: string)
    ensures |j| >= 6
  {
    if |s| >= 6 then s else s + seq(6 - |s|, _ => ' ')
  }

  function Shifted(c: char): Byte { ((2 * (c as int)) % 256) as Byte }

  function SsidOctet(a: Address, last: bool): Byte {
    (96 + 2 * (a.ssid % 16) + (if a.flag then 128 else 0) + (if last then 1 else 0)) as Byte
  }

  function EncodeAddress(a: Address, last: bool): Bytes {
    var call := Justified(Uppered(a.callsign));
    seq(|call|, i requires 0 <= i < |call| => Shifted(call[i])) + [SsidOctet(a, last)]
  }

  /** Only plain characters, then only spaces. */
  predicate WellPadded(chars: string) {
    && (forall i :: 0 <= i < |chars| ==> chars[i] == ' ' || Plain(chars[i]))
    && (forall i, j :: 0 <= i < j < |chars| && chars[i] == ' ' ==> chars[j] == ' ')
  }

  function Stripped(s: string): (t: string)
    ensures t <= s
    ensures forall i :: |t| <= i < |s| ==> s[i] == ' '
    ensures t != [] ==> t[|t| - 1] != ' '
  {
    if s != [] && s[|s| - 1] == ' ' then Stripped(s[..|s| - 1]) else s
  }

  function FieldChars(field: Bytes): (chars: string)
    requires |field| >= 6
    ensures |chars| == 6
  {
    seq(6, i requires 0 <= i < 6 => (field[i] / 2) as int as char)
  }

  function DecodeAddress(field: Bytes): Result<(Address, bool), Ax25Error> {
    if |field| != 7 then Err(FieldLength)
    else if exists i :: 0 <= i < 6 && field[i] % 2 == 1 then Err(UnshiftedCallsign)
    else if (field[6] / 32) % 4 != 3 then Err(ReservedBits)
    else if !WellPadded(FieldChars(field)) then Err(CallsignCharacters)
    else
      var callsign := Stripped(FieldChars(field));
      if callsign == [] then Err(EmptyCallsign)
      else Ok((Address(callsign, ((field[6] / 2) % 16) as int, field[6] >= 128), field[6] % 2 == 1))
  }

  /** One to six digits or upper-case letters, and a four-bit SSID. */
  predicate Standard(a: Address) {
    1 <= |a.callsign| <= 6 && (forall i :: 0 <= i < |a.callsign| ==> Plain(a.callsign[i])) && 0 <= a.ssid <= 15
  }

  lemma SsidRoundTrip(o: Byte, a: Address, last: bool)
    ensures (o / 32) % 4 == 3 ==> SsidOctet(Address(a.callsign, ((o / 2) % 16) as int, o >= 128), o % 2 == 1) == o
    ensures var e := SsidOctet(a, last);
            (e / 32) % 4 == 3 && ((e / 2) % 16) as int == a.ssid % 16 && (e >= 128) == a.flag && (e % 2 == 1) == last
  {
  }

  /** The six shifted characters and the stripped callsign determine each other. */
  lemma CallsignOfChars(chars: string)
    requires |chars| == 6 && WellPadded(chars) && Stripped(chars) != []
    ensures var t := Stripped(chars);
            (forall i :: 0 <= i < |t| ==> Plain(t[i])) && Justified(t) == chars
  {
    var t := Stripped(chars);
    assert forall i :: 0 <= i < |t| ==> t[i] == chars[i];
    assert chars[|t| - 1] != ' ';
  }

  lemma {:induction false} StripPadding(s: string, n: nat)
    requires s == [] || s[|s| - 1] != ' '
    ensures Stripped(s + seq(n, _ => ' ')) == s
  {
    var padded := s + seq(n, _ => ' ');
    if n == 0 {
      assert padded == s;
    } else {
      assert padded[..|padded| - 1] == s + seq(n - 1, _ => ' ');
      StripPadding(s, n - 1);
    }
  }

  /** Re-encoding any decoded address gives back the very octets. */
  lemma EncodeInvertsDecode(field: Bytes)
    requires DecodeAddress(field).Ok?
    ensures var (a, last) := DecodeAddress(field).value; Standard(a) && EncodeAddress(a, last) == field
  {
    hide Stripped, Justified, SsidOctet, WellPadded;
    var (a, last) := DecodeAddress(field).value;
    var chars := FieldChars(field);
    CallsignOfChars(chars);
    assert Uppered(a.callsign) == a.callsign;
    forall i | 0 <= i < 6 ensures Shifted(chars[i]) == field[i] {
      assert field[i] % 2 == 0;
    }
    SsidRoundTrip(field[6], a, last);
    assert EncodeAddress(a, last) == field[..6] + [field[6]];
  }

  /** Shifting the padded callsign left and back loses nothing. */
  lemma EncodedFieldChars(a: Address, last: bool)
    requires Standard(a)
    ensures var field, call := EncodeAddress(a, last), a.callsign + seq(6 - |a.callsign|, _ => ' ');
            && |field| == 7 && FieldChars(field) == call && WellPadded(call)
            && (forall i :: 0 <= i < 6 ==> field[i] % 2 == 0)
            && field[6] == SsidOctet(a, last)
  {
    hide SsidOctet;
    var field, call := EncodeAddress(a, last), a.callsign + seq(6 - |a.callsign|, _ => ' ');
    assert Uppered(a.callsign) == a.callsign;
    assert Justified(a.callsign) == call;
    forall i | 0 <= i < 6 ensures field[i] % 2 == 0 && (field[i] / 2) as int as char == call[i] {
      assert field[i] == Shifted(call[i]);
    }
  }

  /** Every standard address survives encoding. */
  lemma DecodeInvertsEncode(a: Address, last: bool)
    requires Standard(a)
    ensures DecodeAddress(EncodeAddress(a, last)) == Ok((a, last))
  {
    hide Stripped, SsidOctet, EncodeAddress, FieldChars, WellPadded;
    EncodedFieldChars(a, last);
    SsidRoundTrip(0, a, last);
    StripPadding(a.callsign, 6 - |a.callsign|);
  }

  // ---- The address list

  function EncodeList(addresses: seq<Address>): Bytes {
    if addresses == [] then []
    else EncodeAddress(addresses[0], |addresses| == 1) + EncodeList(addresses[1..])
  }

  /** The addresses from the front of `data` when `seen` were already read;
      at most eleven may be read in all. */
  function DecodeList(data: Bytes, seen: nat): (r: Result<seq<Address>, Ax25Error>)
    requires seen <= 10
    ensures r.Ok? ==> 1 <= |r.value| <= 11 - seen && 7 * |r.value| <= |data|
    decreases 10 - seen
  {
    if |data| < 7 then Err(TruncatedList) else
      match DecodeAddress(data[..7])
      case Err(e) => Err(e)
      case Ok((a, last)) =>
        if last then Ok([a])
        else if seen + 1 > 10 then Err(ListTooLong)
        else match DecodeList(data[7..], seen + 1)
             case Err(e) => Err(e)
             case Ok(rest) => Ok([a] + rest)
  }

  function DecodeAddresses(data: Bytes): (r: Result<seq<Address>, Ax25Error>)
    ensures r.Ok? ==> 2 <= |r.value| <= 11 && 7 * |r.value| <= |data|
  {
    match DecodeList(data, 0)
    case Err(e) => Err(e)
    case Ok(addresses) => if |addresses| < 2 then Err(TooFewAddresses) else Ok(addresses)
  }

  function Extended(done: seq<Address>, r: Result<seq<Address>, Ax25Error>): Result<seq<Address>, Ax25Error> {
    match r
    case Err(e) => Err(e)
    case Ok(rest) => Ok(done + rest)
  }

  /** The loop of `_decode_addresses`; `offset` is where the control octet
      would be. */
  method ReadAddresses(data: Bytes) returns (r: Result<seq<Address>, Ax25Error>, offset: nat)
    ensures r == DecodeAddresses(data)
    ensures r.Ok? ==> offset == 7 * |r.value|
  {
    hide DecodeAddress, DecodeList;
    var addresses: seq<Address> := [];
    offset := 0;
    assert data[0..] == data;
    NothingRead(DecodeList(data, 0));
    while true
      invariant offset == 7 * |addresses| && offset <= |data| && |addresses| <= 10
      invariant Extended(addresses, DecodeList(data[offset..], |addresses|)) == Extended([], DecodeList(data, 0))
      decreases 10 - |addresses|
    {
      ReadStep(addresses, data[offset..]);
      if offset + 7 > |data| {
        return Err(TruncatedList), offset;
      }
      assert data[offset..][..7] == data[offset..offset + 7] && data[offset..][7..] == data[offset + 7..];
      match DecodeAddress(data[offset..offset + 7]) {
        case Err(e) => return Err(e), offset;
        case Ok((address, last)) =>
          addresses := addresses + [address];
          offset := offset + 7;
          if last {
            break;
          }
          if |addresses| > 10 {
            return Err(ListTooLong), offset;
          }
      }
    }
    r := if |addresses| < 2 then Err(TooFewAddresses) else Ok(addresses);
  }

  lemma NothingRead(r: Result<seq<Address>, Ax25Error>)
    ensures Extended([], r) == r
  {
    if r.Ok? {
      assert [] + r.value == r.value;
    }
  }

  lemma ReadStep(done: seq<Address>, rest: Bytes)
    requires |done| <= 10
    ensures |rest| < 7 ==> Extended(done, DecodeList(rest, |done|)) == Err(TruncatedList)
    ensures |rest| >= 7 ==>
              var first, all := DecodeAddress(rest[..7]), Extended(done, DecodeList(rest, |done|));
              if first.Err? then all == Err(first.error)
              else if first.value.1 then all == Ok(done + [first.value.0])
              else if |done| == 10 then all == Err(ListTooLong)
              else all == Extended(done + [first.value.0], DecodeList(rest[7..], |done| + 1))
  {
    hide DecodeAddress;
    if |rest| >= 7 && DecodeAddress(rest[..7]).Ok? && |done| < 10 {
      var r := DecodeList(rest[7..], |done| + 1);
      if r.Ok? {
        var first := [DecodeAddress(rest[..7]).value.0];
        assert done + (first + r.value) == (done + first) + r.value;
      }
    }
  }

  lemma {:induction false} ListReencodes(data: Bytes, seen: nat)
    requires seen <= 10 && DecodeList(data, seen).Ok?
    ensures var addresses := DecodeList(data, seen).value;
            && (forall i :: 0 <= i < |addresses| ==> Standard(addresses[i]))
            && EncodeList(addresses) == data[..7 * |addresses|]
    decreases 10 - seen
  {
    hide DecodeAddress, EncodeAddress, Standard;
    var addresses := DecodeList(data, seen).value;
    EncodeInvertsDecode(data[..7]);
    if !DecodeAddress(data[..7]).value.1 {
      ListReencodes(data[7..], seen + 1);
      assert addresses[1..] == DecodeList(data[7..], seen + 1).value;
      assert data[..7 * |addresses|] == data[..7] + data[7..][..7 * (|addresses| - 1)];
    }
  }

  lemma {:induction false} ListDecodes(addresses: seq<Address>, rest: Bytes, seen: nat)
    requires seen <= 10 && addresses != [] && forall i :: 0 <= i < |addresses| ==> Standard(addresses[i])
    ensures |EncodeList(addresses)| == 7 * |addresses|
    ensures DecodeList(EncodeList(addresses) + rest, seen)
         == if |addresses| <= 11 - seen then Ok(addresses) else Err(ListTooLong)
    decreases |addresses|
  {
    hide DecodeAddress, EncodeAddress, Standard;
    var field := EncodeAddress(addresses[0], |addresses| == 1);
    var data := EncodeList(addresses) + rest;
    assert |field| == 7 by { FieldIsSeven(addresses[0], |addresses| == 1); }
    DecodeInvertsEncode(addresses[0], |addresses| == 1);
    assert data[..7] == field && data[7..] == EncodeList(addresses[1..]) + rest;
    assert addresses == [addresses[0]] + addresses[1..];
    if |addresses| > 1 {
      EncodedLength(addresses[1..]);
      if seen < 10 {
        ListDecodes(addresses[1..], rest, seen + 1);
      }
    } else {
      assert addresses[1..] == [] && [addresses[0]] == addresses;
    }
  }

  lemma FieldIsSeven(a: Address, last: bool)
    requires Standard(a)
    ensures |EncodeAddress(a, last)| == 7
  {
  }

  lemma {:induction false} EncodedLength(addresses: seq<Address>)
    requires forall i :: 0 <= i < |addresses| ==> Standard(addresses[i])
    ensures |EncodeList(addresses)| == 7 * |addresses|
  {
    hide EncodeAddress, Standard;
    if addresses != [] {
      FieldIsSeven(addresses[0], |addresses| == 1);
      EncodedLength(addresses[1..]);
    }
  }

  // ---- Frames

  datatype Control =
    | I(ns: nat, nr: nat)
    | S(code: nat, nr: nat)
    | U(code: nat)

  datatype Frame = Frame(
    destination: Address, source: Address, path: seq<Address>,
    control: Byte, kind: Control, pollFinal: bool, pid: Option<Byte>, info: Bytes)

  const UI := 0x03

  function Kind(control: Byte): Control {
    var c := control as int;
    if c % 2 == 0 then I((c / 2) % 8, c / 32)
    else if c % 4 == 1 then S((c / 4) % 4, c / 32)
    else U(c - 16 * ((c / 16) % 2))
  }

  predicate HasPid(kind: Control) { kind.I? || kind == U(UI) }

  function ParseBody(data: Bytes): Result<Frame, Ax25Error> {
    if |data| < 15 then Err(TooShort) else
      match DecodeAddresses(data)
      case Err(e) => Err(e)
      case Ok(addresses) =>
        var offset := 7 * |addresses|;
        if offset >= |data| then Err(NoControl) else
          var kind := Kind(data[offset]);
          if HasPid(kind) && offset + 1 >= |data| then Err(NoPid) else
            Ok(Frame(addresses[0], addresses[1], addresses[2..], data[offset], kind, (data[offset] / 16) % 2 == 1,
                     if HasPid(kind) then Some(data[offset + 1]) else None,
                     if HasPid(kind) then data[offset + 2..] else data[offset + 1..]))
  }

  function ParseFrame(frame: Bytes, hasFcs: bool): Result<Frame, Ax25Error> {
    if hasFcs then
      if !VerifyFcs(frame) then Err(BadFcs) else ParseBody(frame[..|frame| - 2])
    else ParseBody(frame)
  }

  /** The octets that a parsed frame stands for. */
  function Print(f: Frame): Bytes {
    EncodeList([f.destination, f.source] + f.path) + [f.control]
    + (match f.pid case Some(p) => [p] case None => []) + f.info
  }

  function BuildUiFrame(source: Address, destination: Address, info: Bytes, path: seq<Address>,
                        pid: int, includeFcs: bool): Result<Bytes, Ax25Error> {
    if pid < 0 || pid > 255 then Err(BadPid) else
      var addresses := [destination.(flag := true), source.(flag := false)] + path;
      var data := EncodeList(addresses) + [UI as Byte, pid as Byte] + info;
      Ok(if includeFcs then AppendFcs(data) else data)
  }

  /** The loop of `build_ui_frame` over the address list. */
  method WriteAddresses(addresses: seq<Address>) returns (frame: Bytes)
    ensures frame == EncodeList(addresses)
  {
    hide EncodeAddress, EncodeList;
    frame := [];
    assert addresses[0..] == addresses && [] + EncodeList(addresses) == EncodeList(addresses);
    for index := 0 to |addresses|
      invariant frame + EncodeList(addresses[index..]) == EncodeList(addresses)
    {
      ghost var rest := addresses[index..];
      assert rest[0] == addresses[index] && rest[1..] == addresses[index + 1..];
      WriteStep(frame, rest);
      frame := frame + EncodeAddress(addresses[index], index == |addresses| - 1);
    }
    assert addresses[|addresses|..] == [];
    NothingToWrite(frame);
  }

  lemma WriteStep(done: Bytes, rest: seq<Address>)
    requires rest != []
    ensures done + EncodeList(rest) == (done + EncodeAddress(rest[0], |rest| == 1)) + EncodeList(rest[1..])
  {
    hide EncodeAddress;
  }

  lemma NothingToWrite(done: Bytes)
    ensures done + EncodeList([]) == done
  {
  }

  // ---- What the octets of a frame mean

  /** Where a standard address puts its characters, SSID and flags. */
  lemma AddressOctets(a: Address, last: bool)
    requires Standard(a)
    ensures var field := EncodeAddress(a, last);
            && |field| == 7
            && (forall i :: 0 <= i < 6 ==>
                  field[i] as int == 2 * (if i < |a.callsign| then a.callsign[i] as int else ' ' as int))
            && var b := ByteBits(field[6]);
               b[0] == last && ValueOf(b[1..5]) == a.ssid && b[5] && b[6] && b[7] == a.flag
  {
    FieldIsSeven(a, last);
    assert Uppered(a.callsign) == a.callsign;
    SsidBits(a, last);
  }

  lemma SsidBits(a: Address, last: bool)
    requires 0 <= a.ssid <= 15
    ensures var b := ByteBits(SsidOctet(a, last));
            b[0] == last && ValueOf(b[1..5]) == a.ssid && b[5] && b[6] && b[7] == a.flag
  {
    hide ByteBits, ValueOf, Pow2;
    Powers();
    var o := SsidOctet(a, last);
    OctetDigit(o, 0, 1);
    OctetField(o, 1, 5, 2, 16);
    OctetDigit(o, 5, 32);
    OctetDigit(o, 6, 64);
    OctetDigit(o, 7, 128);
    SsidDigits(a.ssid, last, a.flag);
  }

  lemma SsidDigits(ssid: nat, last: bool, flag: bool)
    requires ssid <= 15
    ensures var v: int := 96 + 2 * (ssid % 16) + (if flag then 128 else 0) + (if last then 1 else 0);
            && (v % 2 == 1 <==> last) && v / 2 % 16 == ssid && v / 32 % 2 == 1 && v / 64 % 2 == 1
            && (v / 128 % 2 == 1 <==> flag)
  {
  }

  /** The two lowest bits of the control octet give the class; N(S), N(R) and the
      supervisory code are its bit fields. */
  lemma ControlOctet(c: Byte)
    ensures var b, k := ByteBits(c), Kind(c);
            && (k.I? <==> !b[0]) && (k.S? <==> b[0] && !b[1]) && (k.U? <==> b[0] && b[1])
            && (k.I? ==> k.ns == ValueOf(b[1..4]) && k.nr == ValueOf(b[5..8]))
            && (k.S? ==> k.code == ValueOf(b[2..4]) && k.nr == ValueOf(b[5..8]))
  {
    hide ByteBits, ValueOf, Pow2;
    Powers();
    LowestTwo(c);
    OctetField(c, 1, 4, 2, 8);
    OctetField(c, 2, 4, 4, 4);
    OctetField(c, 5, 8, 32, 8);
  }

  lemma LowestTwo(c: Byte)
    ensures ByteBits(c)[0] <==> c % 2 == 1
    ensures ByteBits(c)[0] && !ByteBits(c)[1] <==> c % 4 == 1
  {
    hide ByteBits, Pow2;
    Powers();
    OctetDigit(c, 0, 1);
    OctetDigit(c, 1, 2);
    var v := c as int;
    assert v == 4 * (v / 4) + 2 * (v / 2 % 2) + v % 2;
  }

  /** The code of an unnumbered frame is the octet with its P/F bit cleared. */
  lemma UnnumberedCode(c: Byte)
    requires c % 4 == 3
    ensures Kind(c).U? && Kind(c).code < 256 && ByteBits(Kind(c).code as Byte) == ByteBits(c)[4 := false]
  {
    hide ByteBits, ValueOf, Pow2;
    Powers();
    CodeDigits(c as int);
    var b, d := ByteBits(c), ByteBits(Kind(c).code as Byte);
    OctetField(c, 0, 4, 1, 16);
    OctetField(c, 5, 8, 32, 8);
    OctetField(Kind(c).code as Byte, 0, 4, 1, 16);
    OctetField(Kind(c).code as Byte, 5, 8, 32, 8);
    OctetDigit(Kind(c).code as Byte, 4, 16);
    SameButOne(b, d);
  }

  lemma SameButOne(b: Bits, d: Bits)
    requires |b| == |d| == 8 && !d[4]
    requires ValueOf(b[0..4]) == ValueOf(d[0..4]) && ValueOf(b[5..8]) == ValueOf(d[5..8])
    ensures d == b[4 := false]
  {
    hide ValueOf, LowBits;
    LowBitsOfValue(b[0..4]);
    LowBitsOfValue(d[0..4]);
    LowBitsOfValue(b[5..8]);
    LowBitsOfValue(d[5..8]);
    assert d == d[0..4] + [d[4]] + d[5..8] && b == b[0..4] + [b[4]] + b[5..8];
  }

  lemma CodeDigits(v: nat)
    requires v < 256 && v % 4 == 3
    ensures var u := v - 16 * (v / 16 % 2);
            0 <= u < 256 && u % 16 == v % 16 && u / 32 == v / 32 && u / 16 % 2 == 0
  {
    assert v == 32 * (v / 32) + 16 * (v / 16 % 2) + v % 16;
  }

  /** I frames carry a PID, and so do UI frames with either P/F; no other does. */
  predicate CarriesPid(c: Byte) { c % 2 == 0 || c == 0x03 || c == 0x13 }

  lemma PidByOctet(c: Byte)
    ensures HasPid(Kind(c)) <==> CarriesPid(c)
    ensures (c / 16) % 2 == 1 <==> ByteBits(c)[4]
  {
    hide ByteBits, Pow2;
    Powers();
    OctetDigit(c, 4, 16);
    var v := c as int;
    if v % 4 == 3 {
      assert v == 32 * (v / 32) + 16 * (v / 16 % 2) + v % 16;
    }
  }

  /** A body with this address list at its front. */
  ghost predicate Fronts(addresses: seq<Address>, data: Bytes) {
    && 2 <= |addresses| <= 11 && (forall i :: 0 <= i < |addresses| ==> Standard(addresses[i]))
    && EncodeList(addresses) <= data
  }

  /** Parsing accepts exactly the bodies that begin with two to eleven standard
      addresses and go on with a control octet, and a PID where it calls for one;
      every field of the result is given by those octets. */
  lemma ParseByOctets(data: Bytes, addresses: seq<Address>)
    requires Fronts(addresses, data)
    ensures var n, r := 7 * |addresses|, ParseBody(data);
            && (r.Ok? <==> |data| > n && (CarriesPid(data[n]) ==> |data| > n + 1))
            && (r.Ok? ==>
                  && [r.value.destination, r.value.source] + r.value.path == addresses && r.value.control == data[n]
                  && r.value.kind == Kind(data[n]) && r.value.pollFinal == ByteBits(data[n])[4]
                  && r.value.pid == (if CarriesPid(data[n]) then Some(data[n + 1]) else None)
                  && r.value.info == data[if CarriesPid(data[n]) then n + 2 else n + 1..])
  {
    hide Kind, HasPid, CarriesPid, Fronts, DecodeAddresses, ByteBits;
    FrontDecodes(data, addresses);
    var n := 7 * |addresses|;
    if |data| > n {
      PidByOctet(data[n]);
    }
  }

  lemma FrontDecodes(data: Bytes, addresses: seq<Address>)
    requires Fronts(addresses, data)
    ensures 2 <= |addresses| && 7 * |addresses| <= |data| && DecodeAddresses(data) == Ok(addresses)
  {
    hide EncodeList, DecodeList, Standard;
    var n := 7 * |addresses|;
    EncodedLength(addresses);
    ListDecodes(addresses, data[n..], 0);
    assert data == EncodeList(addresses) + data[n..];
  }

  lemma ParsedIsFronted(data: Bytes)
    ensures ParseBody(data).Ok? ==> exists addresses :: Fronts(addresses, data)
  {
    hide EncodeList, DecodeList, Kind, HasPid, Standard;
    if ParseBody(data).Ok? {
      ListReencodes(data, 0);
      assert Fronts(DecodeAddresses(data).value, data);
    }
  }

  /** Printing what was parsed reproduces every octet of the body. */
  lemma PrintInvertsParse(data: Bytes)
    ensures ParseBody(data).Ok? ==> Print(ParseBody(data).value) == data
  {
    hide EncodeList, DecodeList, Kind;
    if ParseBody(data).Ok? {
      var f := ParseBody(data).value;
      var addresses := DecodeAddresses(data).value;
      ListReencodes(data, 0);
      assert addresses == [f.destination, f.source] + f.path;
    }
  }

  /** A built UI frame parses back to its addresses (with the command bits the
      builder sets), PID and information field; it does so exactly when the
      path has at most nine entries. */
  lemma ParseInvertsBuild(source: Address, destination: Address, info: Bytes, path: seq<Address>, pid: Byte,
                          includeFcs: bool)
    requires Standard(source) && Standard(destination) && forall i :: 0 <= i < |path| ==> Standard(path[i])
    ensures var frame := BuildUiFrame(source, destination, info, path, pid as int, includeFcs).value;
            ParseFrame(frame, includeFcs) ==
              if |path| <= 9
              then Ok(Frame(destination.(flag := true), source.(flag := false), path,
                            UI as Byte, U(UI), false, Some(pid), info))
              else Err(ListTooLong)
  {
    hide VerifyFcs, Standard, ParseBody, AppendFcs;
    var data := BuildUiFrame(source, destination, info, path, pid as int, false).value;
    BodyParses(source, destination, info, path, pid);
    AppendedFcsVerifies(data);
    FcsIsATail(data);
  }

  lemma FcsIsATail(data: Bytes)
    ensures |AppendFcs(data)| == |data| + 2 && AppendFcs(data)[..|data|] == data
  {
    hide Crc;
  }

  lemma BodyParses(source: Address, destination: Address, info: Bytes, path: seq<Address>, pid: Byte)
    requires Standard(source) && Standard(destination) && forall i :: 0 <= i < |path| ==> Standard(path[i])
    ensures ParseBody(BuildUiFrame(source, destination, info, path, pid as int, false).value) ==
              if |path| <= 9
              then Ok(Frame(destination.(flag := true), source.(flag := false), path,
                            UI as Byte, U(UI), false, Some(pid), info))
              else Err(ListTooLong)
  {
    hide EncodeList, DecodeList, Standard;
    var addresses := [destination.(flag := true), source.(flag := false)] + path;
    assert forall i :: 0 <= i < |addresses| ==> Standard(addresses[i]) by { StandardIgnoresFlag(source, destination); }
    var data := EncodeList(addresses) + [UI as Byte, pid] + info;
    assert data == EncodeList(addresses) + ([UI as Byte, pid] + info);
    ListDecodes(addresses, [UI as Byte, pid] + info, 0);
    if |path| <= 9 {
      assert addresses[2..] == path;
      assert data[7 * |addresses| + 2..] == info;
      assert Kind(UI as Byte) == U(UI);
    }
  }

  lemma StandardIgnoresFlag(source: Address, destination: Address)
    requires Standard(source) && Standard(destination)
    ensures Standard(source.(flag := false)) && Standard(destination.(flag := true))
  {
  }
}
