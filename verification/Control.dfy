/** KISS control state: immutable parameter generations, the commands that
    replace them, and the transmit context captured for one DATA request. */
module Control {
  import opened Primitives
  import opened KissFraming
  import TxDelay
  import ChannelAccess

  const DATA := 0
  const TXDELAY := 1
  const PERSIST := 2
  const SLOTTIME := 3
  const FULLDUPLEX := 5

  datatype Snapshot = Snapshot(generation: nat, txdelay: int, persist: int, slottime: int, fullduplex: int, port: int)

  /** What every published generation satisfies. */
  predicate ValidSnapshot(s: Snapshot) {
    && 0 <= s.txdelay <= 255 && 0 <= s.persist <= 255 && 1 <= s.slottime <= 255
    && s.fullduplex == 0 && s.port == 0
  }

  datatype Context = Context(parameters: Snapshot, profile: TxDelay.Profile, csma: ChannelAccess.CsmaParameters)

  /** A context is the policy of exactly one parameter generation. */
  predicate Coherent(c: Context) {
    && ValidSnapshot(c.parameters)
    && TxDelay.Resolve(c.parameters.txdelay) == Ok(c.profile)
    && c.csma.persist == c.parameters.persist && c.csma.slotTime10ms == c.parameters.slottime
  }

  function Capture(s: Snapshot, maxWait: real): (c: Context)
    requires ValidSnapshot(s) && maxWait > 0.0
    ensures Coherent(c) && c.parameters == s && c.csma.maxWait == maxWait
  {
    Context(s, TxDelay.Resolve(s.txdelay).value, ChannelAccess.Parameters(s.persist, s.slottime, maxWait))
  }

  datatype Disposition =
    | ParameterUpdated | DataRejected | Malformed | UnsupportedPort | UnknownCommand | ParameterRejected

  function Judge(m: Message): Disposition {
    if m.port != 0 then UnsupportedPort
    else if m.command == DATA then DataRejected
    else if m.command !in {TXDELAY, PERSIST, SLOTTIME, FULLDUPLEX} then UnknownCommand
    else if |m.frame| != 1 then Malformed
    else if m.command == SLOTTIME && m.frame[0] == 0 then ParameterRejected
    else if m.command == FULLDUPLEX && m.frame[0] != 0 then ParameterRejected
    else ParameterUpdated
  }

  function Updated(s: Snapshot, m: Message): Snapshot {
    if Judge(m) != ParameterUpdated then s else
      var value := m.frame[0] as int;
      var next := s.(generation := s.generation + 1);
      if m.command == TXDELAY then next.(txdelay := value)
      else if m.command == PERSIST then next.(persist := value)
      else if m.command == SLOTTIME then next.(slottime := value)
      else next.(fullduplex := value)
  }

  function UpdatedAll(s: Snapshot, ms: seq<Message>): Snapshot
    decreases |ms|
  {
    if ms == [] then s else UpdatedAll(Updated(s, ms[0]), ms[1..])
  }

  /** The messages that set a parameter: one octet on port zero, any value for
      TXDELAY and PERSIST, any but zero for SLOTTIME, only zero for FULLDUPLEX. */
  predicate Sets(m: Message) {
    && m.port == 0 && |m.frame| == 1
    && match m.command
       case 1 => true
       case 2 => true
       case 3 => m.frame[0] > 0
       case 5 => m.frame[0] == 0
       case _ => false
  }

  /** Which message gets which answer. */
  lemma Dispositions(m: Message)
    ensures Judge(m) == ParameterUpdated <==> Sets(m)
    ensures Judge(m) == UnsupportedPort <==> m.port != 0
    ensures Judge(m) == DataRejected <==> m.port == 0 && m.command == 0
    ensures Judge(m) == UnknownCommand <==> m.port == 0 && (m.command < 0 || m.command == 4 || m.command > 5)
    ensures Judge(m) == Malformed <==> m.port == 0 && m.command in {1, 2, 3, 5} && |m.frame| != 1
    ensures Judge(m) == ParameterRejected <==>
              m.port == 0 && |m.frame| == 1 && ((m.command == 3 && m.frame[0] == 0)
                                                || (m.command == 5 && m.frame[0] != 0))
  {
  }

  function Updates(ms: seq<Message>): nat {
    if ms == [] then 0 else (if Sets(ms[0]) then 1 else 0) + Updates(ms[1..])
  }

  /** The payload of the last accepted command of one kind, or `initial`. */
  function Latest(command: int, initial: int, ms: seq<Message>): int {
    if ms == [] then initial else
      var m := ms[|ms| - 1];
      if Sets(m) && m.command == command then m.frame[0] as int
      else Latest(command, initial, ms[..|ms| - 1])
  }

  lemma {:induction false} UpdatedAllSnoc(s: Snapshot, ms: seq<Message>, m: Message)
    ensures UpdatedAll(s, ms + [m]) == Updated(UpdatedAll(s, ms), m)
    ensures Updates(ms + [m]) == Updates(ms) + (if Sets(m) then 1 else 0)
    decreases |ms|
  {
    hide Updated, Sets;
    if ms == [] {
      assert ([] + [m])[1..] == [];
    } else {
      assert (ms + [m])[1..] == ms[1..] + [m];
      UpdatedAllSnoc(Updated(s, ms[0]), ms[1..], m);
    }
  }

  /** After any sequence of messages the published snapshot is valid, its
      generation counts the accepted updates, and each parameter is the last
      accepted value for it, untouched by every other message. */
  lemma {:induction false} SnapshotAfterRun(s: Snapshot, ms: seq<Message>)
    requires ValidSnapshot(s)
    ensures var t := UpdatedAll(s, ms);
            && ValidSnapshot(t) && t.generation == s.generation + Updates(ms)
            && t.txdelay == Latest(1, s.txdelay, ms) && t.persist == Latest(2, s.persist, ms)
            && t.slottime == Latest(3, s.slottime, ms)
    decreases |ms|
  {
    if ms != [] {
      var n := |ms| - 1;
      assert ms == ms[..n] + [ms[n]];
      SnapshotAfterRun(s, ms[..n]);
      UpdatedAllSnoc(s, ms[..n], ms[n]);
    }
  }

  class TNCSessionState {
    var parameters: Snapshot
    var received: nat
    var updates: nat
    var rejections: nat
    var malformed: nat
    var unknown: nat
    var unsupportedPorts: nat
    var fullDuplexRejected: nat
    var slotTimeRejected: nat
    var dataRejected: nat

    /** Every message received is accounted for exactly once.  (`malformed` also
        counts what the stream decoder discards.) */
    ghost predicate Valid()
      reads this
    {
      && ValidSnapshot(parameters)
      && received == updates + rejections + unknown + unsupportedPorts + dataRejected
      && fullDuplexRejected + slotTimeRejected <= rejections <= fullDuplexRejected + slotTimeRejected + malformed
    }

    constructor (initial: Snapshot)
      requires ValidSnapshot(initial)
      ensures Valid() && parameters == initial && received == 0
    {
      parameters := initial;
      received, updates, rejections, malformed, unknown := 0, 0, 0, 0, 0;
      unsupportedPorts, fullDuplexRejected, slotTimeRejected, dataRejected := 0, 0, 0, 0;
    }

    method Apply(m: Message) returns (d: Disposition)
      requires Valid()
      modifies this
      ensures Valid() && d == Judge(m) && (d == ParameterUpdated <==> Sets(m)) && received == old(received) + 1
      ensures parameters == Updated(old(parameters), m)
      ensures updates == old(updates) + (if d == ParameterUpdated then 1 else 0)
      ensures dataRejected == old(dataRejected) + (if d == DataRejected then 1 else 0)
      ensures unknown == old(unknown) + (if d == UnknownCommand then 1 else 0)
      ensures unsupportedPorts == old(unsupportedPorts) + (if d == UnsupportedPort then 1 else 0)
      ensures malformed == old(malformed) + (if d == Malformed then 1 else 0)
      ensures rejections == old(rejections) + (if d == Malformed || d == ParameterRejected then 1 else 0)
      ensures slotTimeRejected ==
                old(slotTimeRejected) + (if d == ParameterRejected && m.command == SLOTTIME then 1 else 0)
      ensures fullDuplexRejected ==
                old(fullDuplexRejected) + (if d == ParameterRejected && m.command == FULLDUPLEX then 1 else 0)
    {
      Dispositions(m);
      received := received + 1;
      if m.port != 0 {
        unsupportedPorts := unsupportedPorts + 1;
        return UnsupportedPort;
      }
      if m.command == DATA {
        dataRejected := dataRejected + 1;
        return DataRejected;
      }
      if m.command !in {TXDELAY, PERSIST, SLOTTIME, FULLDUPLEX} {
        unknown := unknown + 1;
        return UnknownCommand;
      }
      if |m.frame| != 1 {
        malformed := malformed + 1;
        rejections := rejections + 1;
        return Malformed;
      }
      var value := m.frame[0] as int;
      var current := parameters.(generation := parameters.generation + 1);
      if m.command == TXDELAY {
        current := current.(txdelay := value);
      } else if m.command == PERSIST {
        current := current.(persist := value);
      } else if m.command == SLOTTIME {
        if value == 0 {
          slotTimeRejected := slotTimeRejected + 1;
          rejections := rejections + 1;
          return ParameterRejected;
        }
        current := current.(slottime := value);
      } else {
        if value != 0 {
          fullDuplexRejected := fullDuplexRejected + 1;
          rejections := rejections + 1;
          return ParameterRejected;
        }
        current := current.(fullduplex := value);
      }
      parameters := current;
      updates := updates + 1;
      d := ParameterUpdated;
    }

    method CaptureTxContext(maxWait: real) returns (c: Context)
      requires Valid() && maxWait > 0.0
      ensures c == Capture(parameters, maxWait)
    {
      c := Capture(parameters, maxWait);
    }
  }
}
