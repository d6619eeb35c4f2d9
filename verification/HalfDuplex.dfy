/** The half-duplex lifecycle RX_STOP, TX, RF idle, RX_START, run against a
    modem and a downstream submitter that may fail or answer anything at each
    call.  Every call is recorded in a ghost trace. */
module HalfDuplex {
  import opened Primitives

  datatype RxStatus = RxStatus(flags: Byte, dropped: nat)

  /** One call of the environment with its answer; `None` is an exception. */
  datatype Call =
    | GetRxStatus(status: Option<RxStatus>)
    | StopRx(ok: bool)
    | StartRx(ok: bool)
    | GetRfStatus(remaining: Option<nat>)
    | GetDiagnostics(txActive: Option<nat>)
    | Submit(frame: Bytes, receipt: Option<nat>)
    | ReadClock(now: real)
    | Slept(delay: real)

  predicate Flag(flags: Byte, bit: nat)
    requires bit < 8
  {
    ByteBits(flags)[bit]
  }

  /** Receiving, RF ready, in AX.25 state (mask 0x0D), not transmitting, nothing dropped. */
  predicate ActiveRx(s: RxStatus) {
    s.dropped == 0 && !Flag(s.flags, 1) && Flag(s.flags, 0) && Flag(s.flags, 2) && Flag(s.flags, 3)
  }

  predicate InactiveRx(s: RxStatus) { s.dropped == 0 && !Flag(s.flags, 0) && !Flag(s.flags, 1) }

  /** The same on the number: `& 0x0F` is `0x0D` while receiving, `& 0x03` is
      zero when stopped. */
  lemma StatusOnOctet(s: RxStatus)
    ensures ActiveRx(s) <==> s.dropped == 0 && s.flags % 16 == 0x0D
    ensures InactiveRx(s) <==> s.dropped == 0 && s.flags % 4 == 0
  {
    var v := s.flags as nat;
    assert Flag(s.flags, 0) == (v % 2 == 1) by { LowBitIsDigit(v, 8, 0); }
    assert Flag(s.flags, 1) == (v / 2 % 2 == 1) by { LowBitIsDigit(v, 8, 1); }
    assert Flag(s.flags, 2) == (v / 4 % 2 == 1) by { LowBitIsDigit(v, 8, 2); }
    assert Flag(s.flags, 3) == (v / 8 % 2 == 1) by { LowBitIsDigit(v, 8, 3); }
    hide Flag;
    FourDigits(v);
  }

  lemma FourDigits(v: nat)
    ensures v % 4 == v % 2 + 2 * (v / 2 % 2)
    ensures v % 16 == v % 2 + 2 * (v / 2 % 2) + 4 * (v / 4 % 2) + 8 * (v / 8 % 2)
  {
    HalfThenRest(v, 2);
    HalfThenRest(v, 8);
    HalfThenRest(v / 2, 4);
    HalfThenRest(v / 4, 2);
    HalfThenDivide(v, 2);
    HalfThenDivide(v, 4);
    HalfThenDivide(v / 2, 2);
  }

  /** Modem, submitter and clock.  Answers are arbitrary; sleeping lets at
      least the requested time pass. */
  class Environment {
    ghost var trace: seq<Call>
    var clock: real

    method RxStatus() returns (s: Option<RxStatus>)
      modifies this`trace
      ensures trace == old(trace) + [GetRxStatus(s)]
    {
      s := *;
      trace := trace + [GetRxStatus(s)];
    }

    method RxStop() returns (ok: bool)
      modifies this`trace
      ensures trace == old(trace) + [StopRx(ok)]
    {
      ok := *;
      trace := trace + [StopRx(ok)];
    }

    method RxStart() returns (ok: bool)
      modifies this`trace
      ensures trace == old(trace) + [StartRx(ok)]
    {
      ok := *;
      trace := trace + [StartRx(ok)];
    }

    method RfStatus() returns (remaining: Option<nat>)
      modifies this`trace
      ensures trace == old(trace) + [GetRfStatus(remaining)]
    {
      remaining := *;
      trace := trace + [GetRfStatus(remaining)];
    }

    method RfDiagnostics() returns (txActive: Option<nat>)
      modifies this`trace
      ensures trace == old(trace) + [GetDiagnostics(txActive)]
    {
      txActive := *;
      trace := trace + [GetDiagnostics(txActive)];
    }

    method SubmitFrame(frame: Bytes) returns (receipt: Option<nat>)
      modifies this`trace
      ensures trace == old(trace) + [Submit(frame, receipt)]
    {
      receipt := *;
      trace := trace + [Submit(frame, receipt)];
    }

    method Monotonic() returns (now: real)
      modifies this`clock, this`trace
      ensures clock >= old(clock) && now == clock && trace == old(trace) + [ReadClock(now)]
    {
      var t: real := *;
      if t > clock {
        clock := t;
      }
      now := clock;
      trace := trace + [ReadClock(now)];
    }

    method Sleep(delay: real)
      modifies this`clock, this`trace
      ensures clock >= old(clock) + delay && clock >= old(clock) && trace == old(trace) + [Slept(delay)]
    {
      var extra: real := *;
      clock := clock + (if delay > 0.0 then delay else 0.0) + (if extra > 0.0 then extra else 0.0);
      trace := trace + [Slept(delay)];
    }
  }

  datatype HalfDuplexError = Latched | BadTimeout | PreTransmit | Downstream | PostTransmit

  datatype Parameters = Parameters(transactionTimeout: real, idlePoll: real, idleTimeout: real)

  predicate Positive(p: Parameters) { p.transactionTimeout > 0.0 && p.idlePoll > 0.0 && p.idleTimeout > 0.0 }

  function Ceil(x: real): int { -((-x).Floor) }

  /** The most polls one idle wait may make. */
  function MaxPolls(p: Parameters): int
    requires Positive(p)
  {
    Ceil(p.idleTimeout / p.idlePoll) + 1
  }

  function Elapsed(k: nat, p: Parameters): real { k as real * p.idlePoll }

  lemma ElapsedGrows(k: nat, p: Parameters)
    ensures Elapsed(0, p) == 0.0 && Elapsed(k + 1, p) == Elapsed(k, p) + p.idlePoll
  {
  }

  lemma PollsBounded(k: nat, p: Parameters)
    requires Positive(p) && Elapsed(k, p) < p.idleTimeout
    ensures k + 2 <= MaxPolls(p)
  {
    var x := p.idleTimeout / p.idlePoll;
    assert x * p.idlePoll == p.idleTimeout;
    assert k as real * p.idlePoll < x * p.idlePoll;
    assert k as real < x;
  }

  // ---- Reading traces

  function Submits(t: seq<Call>): nat {
    if t == [] then 0 else Submits(t[..|t| - 1]) + (if t[|t| - 1].Submit? then 1 else 0)
  }

  /** Completed polls: those in which both questions were answered. */
  function PollsIn(t: seq<Call>): nat {
    if t == [] then 0
    else PollsIn(t[..|t| - 1]) + (if t[|t| - 1].GetDiagnostics? && t[|t| - 1].txActive.Some? then 1 else 0)
  }

  lemma OneMore(t: seq<Call>, c: Call)
    ensures Submits(t + [c]) == Submits(t) + (if c.Submit? then 1 else 0)
    ensures PollsIn(t + [c]) == PollsIn(t) + (if c.GetDiagnostics? && c.txActive.Some? then 1 else 0)
  {
    assert (t + [c])[..|t|] == t;
  }

  lemma {:induction false} CountsConcat(t: seq<Call>, more: seq<Call>)
    ensures Submits(t + more) == Submits(t) + Submits(more) && PollsIn(t + more) == PollsIn(t) + PollsIn(more)
  {
    if more == [] {
      assert t + more == t;
    } else {
      var n := |more| - 1;
      assert t + more == (t + more[..n]) + [more[n]];
      OneMore(t + more[..n], more[n]);
      CountsConcat(t, more[..n]);
    }
  }

  predicate Shows(c: Call, active: bool) {
    c.GetRxStatus? && c.status.Some? && (if active then ActiveRx(c.status.value) else InactiveRx(c.status.value))
  }

  // ---- The idle wait, call by call

  predicate Raised(c: Call) { (c.GetRfStatus? && c.remaining.None?) || (c.GetDiagnostics? && c.txActive.None?) }

  /** Calls `k` and `k + 1` are a poll that saw RF idle. */
  predicate IdleAt(c: seq<Call>, k: int) {
    0 <= k < |c| - 1 && c[k] == GetRfStatus(Some(0)) && c[k + 1] == GetDiagnostics(Some(0))
  }

  /** What follows call `k` of a wait that is not over: a poll is two questions;
      one that was answered without seeing RF idle is followed by a look at the
      clock, and by a sleep of one interval, or of what is left, if there is
      time. */
  predicate Goes(c: seq<Call>, k: int, deadline: real, poll: real)
    requires 0 <= k < |c| - 1
  {
    match c[k]
    case ReadClock(now) =>
      if k == 0 then c[1].GetRfStatus?
      else now < deadline && c[k + 1] == Slept(if poll <= deadline - now then poll else deadline - now)
    case Slept(_) => c[k + 1].GetRfStatus?
    case GetRfStatus(remaining) => remaining.Some? && c[k + 1].GetDiagnostics?
    case GetDiagnostics(txActive) => txActive.Some? && !IdleAt(c, k - 1) && c[k + 1].ReadClock?
    case _ => false
  }

  ghost predicate Going(c: seq<Call>, deadline: real, poll: real) {
    forall k :: 0 <= k < |c| - 1 ==> Goes(c, k, deadline, poll)
  }

  lemma GoesOn(c: seq<Call>, x: Call, deadline: real, poll: real)
    requires c != [] && Going(c, deadline, poll) && Goes(c + [x], |c| - 1, deadline, poll)
    ensures Going(c + [x], deadline, poll)
  {
    forall k | 0 <= k < |c| - 1 ensures Goes(c + [x], k, deadline, poll) {
      assert Goes(c, k, deadline, poll);
    }
  }

  /** The whole wait and its outcome: it goes on until a poll sees RF idle, a
      question raises, or the clock has reached the deadline. */
  ghost predicate WaitLaw(c: seq<Call>, ok: bool, p: Parameters) {
    && |c| >= 2 && c[0].ReadClock?
    && var deadline := c[0].now + p.idleTimeout;
       && Going(c, deadline, p.idlePoll)
       && (if ok then IdleAt(c, |c| - 2)
           else Raised(c[|c| - 1]) || (c[|c| - 1].ReadClock? && c[|c| - 1].now >= deadline))
  }

  /** So it succeeds if and only if some poll saw RF idle, and stops at the first
      that did; and it fails if and only if a question raised, or the clock
      reached the deadline with no poll idle. */
  lemma WaitMeaning(c: seq<Call>, ok: bool, p: Parameters)
    requires WaitLaw(c, ok, p)
    ensures ok <==> IdleAt(c, |c| - 2)
    ensures forall k :: IdleAt(c, k) ==> k == |c| - 2
    ensures !ok <==> (exists k :: 0 <= k < |c| && Raised(c[k]))
                     || (exists k :: 0 < k < |c| && c[k].ReadClock? && c[k].now >= c[0].now + p.idleTimeout)
    ensures forall k :: 0 <= k < |c| ==> !c[k].Submit?
  {
    var deadline := c[0].now + p.idleTimeout;
    forall k | 0 <= k < |c| - 1
      ensures !Raised(c[k]) && !c[k].Submit? && !IdleAt(c, k - 1)
      ensures k > 0 && c[k].ReadClock? ==> c[k].now < deadline
    {
      assert Goes(c, k, deadline, p.idlePoll);
    }
    assert !ok ==> exists k :: 0 <= k < |c| && c[k] == c[|c| - 1];
  }

  // ---- The other parts of a cycle

  /** Prove reception active, stop it, prove it stopped. */
  ghost predicate StopLaw(c: seq<Call>, ok: bool) {
    && |c| >= 1 && c[0].GetRxStatus?
    && if !Shows(c[0], true) then |c| == 1 && !ok
       else && |c| >= 2 && c[1].StopRx?
            && if !c[1].ok then |c| == 2 && !ok
               else |c| == 3 && c[2].GetRxStatus? && ok == Shows(c[2], false)
  }

  /** Restart reception and prove it active. */
  ghost predicate RestartLaw(c: seq<Call>, ok: bool) {
    && |c| >= 1 && c[0].StartRx?
    && if !c[0].ok then |c| == 1 && !ok else |c| == 2 && c[1].GetRxStatus? && ok == Shows(c[1], true)
  }

  /** RF was seen idle, and reception brought back and proven active. */
  predicate Restored(c: seq<Call>) {
    |c| >= 4 && IdleAt(c, |c| - 4) && c[|c| - 2] == StartRx(true) && Shows(c[|c| - 1], true)
  }

  /** Idle wait, then restart if it succeeded. */
  ghost predicate RestoreLaw(c: seq<Call>, p: Parameters) {
    || (WaitLaw(c, false, p) && !Restored(c))
    || exists n :: 0 <= n < |c| && WaitLaw(c[..n], true, p) && RestartLaw(c[n..], Restored(c))
  }

  /** All calls of one cycle. */
  ghost predicate CycleLaw(c: seq<Call>, frame: Bytes, p: Parameters) {
    if |c| < 4 then StopLaw(c, false)
    else StopLaw(c[..3], true) && c[3].Submit? && c[3].frame == frame && RestoreLaw(c[4..], p)
  }

  /** What a cycle answers, from its calls. */
  function CycleResult(c: seq<Call>): Result<nat, HalfDuplexError> {
    if |c| < 4 || !c[3].Submit? then Err(PreTransmit)
    else if c[3].receipt.None? then Err(Downstream)
    else if Restored(c[4..]) then Ok(c[3].receipt.value)
    else Err(PostTransmit)
  }

  /** And whether it leaves the lifecycle latched. */
  predicate CycleLatches(c: seq<Call>) { |c| < 4 || !Restored(c[4..]) }

  /** The first four calls of a cycle that reaches its downstream submitter. */
  predicate HandedOver(c: seq<Call>, frame: Bytes) {
    && |c| >= 4 && Shows(c[0], true) && c[1] == StopRx(true) && Shows(c[2], false)
    && c[3].Submit? && c[3].frame == frame
  }

  /** One equivalence per outcome. */
  lemma CycleOutcomes(c: seq<Call>, frame: Bytes, p: Parameters)
    requires CycleLaw(c, frame, p)
    ensures CycleResult(c).Ok? <==> HandedOver(c, frame) && c[3].receipt.Some? && Restored(c[4..])
    ensures CycleResult(c) == Err(PreTransmit) <==> !HandedOver(c, frame)
    ensures CycleResult(c) == Err(Downstream) <==> HandedOver(c, frame) && c[3].receipt.None?
    ensures CycleResult(c) == Err(PostTransmit) <==> HandedOver(c, frame) && c[3].receipt.Some? && !Restored(c[4..])
    ensures CycleLatches(c) <==> !HandedOver(c, frame) || !Restored(c[4..])
    ensures Submits(c) == if HandedOver(c, frame) then 1 else 0
  {
    hide Shows, Restored;
    CycleSubmits(c, frame, p);
  }

  lemma StopSubmits(c: seq<Call>, ok: bool)
    requires StopLaw(c, ok)
    ensures Submits(c) == 0 && PollsIn(c) == 0
  {
    NoneCounted(c);
  }

  lemma {:induction false} NoneCounted(c: seq<Call>)
    requires forall k :: 0 <= k < |c| ==> !c[k].Submit? && !c[k].GetDiagnostics?
    ensures Submits(c) == 0 && PollsIn(c) == 0
  {
    if c != [] { NoneCounted(c[..|c| - 1]); }
  }

  lemma {:induction false} NoneSubmitted(c: seq<Call>)
    requires forall k :: 0 <= k < |c| ==> !c[k].Submit?
    ensures Submits(c) == 0
  {
    if c != [] { NoneSubmitted(c[..|c| - 1]); }
  }

  lemma RestoreSubmits(c: seq<Call>, p: Parameters)
    requires RestoreLaw(c, p)
    ensures Submits(c) == 0
  {
    hide Shows, Goes, Raised, IdleAt;
    if WaitLaw(c, false, p) {
      WaitMeaning(c, false, p);
      NoneSubmitted(c);
    } else {
      var n :| 0 <= n < |c| && WaitLaw(c[..n], true, p) && RestartLaw(c[n..], Restored(c));
      WaitMeaning(c[..n], true, p);
      NoneSubmitted(c[..n]);
      NoneCounted(c[n..]);
      CountsConcat(c[..n], c[n..]);
      assert c == c[..n] + c[n..];
    }
  }

  lemma CycleSubmits(c: seq<Call>, frame: Bytes, p: Parameters)
    requires CycleLaw(c, frame, p)
    ensures Submits(c) == if |c| >= 4 then 1 else 0
  {
    hide Shows, RestoreLaw, StopLaw;
    if |c| < 4 {
      StopSubmits(c, false);
    } else {
      StopSubmits(c[..3], true);
      RestoreSubmits(c[4..], p);
      OneMore(c[..3], c[3]);
      CountsConcat(c[..4], c[4..]);
      assert c[..4] == c[..3] + [c[3]] && c == c[..4] + c[4..];
    }
  }

  /** A wait about to poll. */
  ghost predicate Opened(c: seq<Call>, deadline: real, poll: real) {
    && c != [] && Going(c, deadline, poll)
    && (if |c| == 1 then c[0].ReadClock? else c[|c| - 1].Slept?)
  }

  lemma PollGoes(c: seq<Call>, asked: seq<Call>, idle: Option<bool>, deadline: real, poll: real)
    requires Opened(c, deadline, poll)
    requires if idle.None? then
               asked == [GetRfStatus(None)] || (exists n: nat :: asked == [GetRfStatus(Some(n)), GetDiagnostics(None)])
             else exists n: nat, t: nat :: asked == [GetRfStatus(Some(n)), GetDiagnostics(Some(t))]
                                           && idle.value == (n == 0 && t == 0)
    ensures Going(c + asked, deadline, poll)
    ensures idle.None? <==> Raised((c + asked)[|c + asked| - 1])
    ensures PollsIn(c + asked) == PollsIn(c) + (if idle.Some? then 1 else 0)
    ensures idle.Some? ==> (idle.value <==> IdleAt(c + asked, |c + asked| - 2)) && asked[1].GetDiagnostics?
                           && |asked| == 2 && asked[1].txActive.Some?
  {
    hide PollsIn;
    GoesOn(c, asked[0], deadline, poll);
    OneMore(c, asked[0]);
    if |asked| == 1 {
      assert c + asked == c + [asked[0]];
    } else {
      GoesOn(c + [asked[0]], asked[1], deadline, poll);
      OneMore(c + [asked[0]], asked[1]);
      assert c + asked == c + [asked[0]] + [asked[1]];
    }
  }

  lemma ClockGoes(c: seq<Call>, now: real, deadline: real, poll: real)
    requires |c| >= 2 && Going(c, deadline, poll) && !IdleAt(c, |c| - 2)
    requires c[|c| - 1].GetDiagnostics? && c[|c| - 1].txActive.Some?
    ensures Going(c + [ReadClock(now)], deadline, poll) && PollsIn(c + [ReadClock(now)]) == PollsIn(c)
  {
    hide PollsIn;
    GoesOn(c, ReadClock(now), deadline, poll);
    OneMore(c, ReadClock(now));
  }

  lemma SleepGoes(c: seq<Call>, deadline: real, poll: real)
    requires |c| >= 2 && Going(c, deadline, poll) && c[|c| - 1].ReadClock? && c[|c| - 1].now < deadline
    ensures var delay := if poll <= deadline - c[|c| - 1].now then poll else deadline - c[|c| - 1].now;
            Opened(c + [Slept(delay)], deadline, poll) && PollsIn(c + [Slept(delay)]) == PollsIn(c)
  {
    hide PollsIn;
    var delay := if poll <= deadline - c[|c| - 1].now then poll else deadline - c[|c| - 1].now;
    GoesOn(c, Slept(delay), deadline, poll);
    OneMore(c, Slept(delay));
  }

  lemma NotRestored(c: seq<Call>, p: Parameters)
    requires WaitLaw(c, false, p)
    ensures !Restored(c) && RestoreLaw(c, p)
  {
    if |c| >= 4 {
      assert Goes(c, |c| - 3, c[0].now + p.idleTimeout, p.idlePoll);
    }
  }

  lemma RestoredIff(c: seq<Call>, more: seq<Call>, ok: bool, p: Parameters)
    requires WaitLaw(c, true, p) && RestartLaw(more, ok)
    ensures ok == Restored(c + more) && RestoreLaw(c + more, p) && PollsIn(c + more) == PollsIn(c)
    ensures ok ==> more[0].ok
  {
    hide PollsIn, ActiveRx, InactiveRx, Going;
    NoneCounted(more);
    CountsConcat(c, more);
    assert (c + more)[..|c|] == c && (c + more)[|c|..] == more;
  }

  class PersistentHalfDuplexSubmitter {
    const env: Environment
    const parameters: Parameters
    var inCycle: bool
    var latched: bool
    var started: nat
    var completed: nat
    var accepted: nat
    var preFailures: nat
    var downstreamFailures: nat
    var postFailures: nat
    var recovered: nat
    var rxStops: nat
    var rxRestarts: nat
    var idlePolls: nat

    /** What holds between calls, whatever the environment did. */
    ghost predicate Valid()
      reads this, env
    {
      && Positive(parameters) && !inCycle
      && started == completed + preFailures + downstreamFailures + postFailures
      && accepted == completed + postFailures
      && recovered <= downstreamFailures
      && preFailures + postFailures + (downstreamFailures - recovered) == (if latched then 1 else 0)
      && (!latched ==> rxStops == started && rxRestarts == started)
      && rxRestarts <= rxStops <= started
      && Submits(env.trace) == accepted + downstreamFailures
    }

    constructor (env: Environment, parameters: Parameters)
      requires Positive(parameters) && Submits(env.trace) == 0
      ensures Valid() && !latched && started == 0 && this.env == env && this.parameters == parameters
    {
      this.env := env;
      this.parameters := parameters;
      inCycle, latched := false, false;
      started, completed, accepted, preFailures, downstreamFailures, postFailures := 0, 0, 0, 0, 0, 0;
      recovered, rxStops, rxRestarts, idlePolls := 0, 0, 0, 0;
    }

    /** One poll: RF idle, RF busy, or the modem failed. */
    method Poll() returns (idle: Option<bool>, ghost c: seq<Call>)
      modifies this`idlePolls, env`trace
      ensures env.trace == old(env.trace) + c
      ensures idlePolls == old(idlePolls) + (if idle.Some? then 1 else 0)
      ensures if idle.None? then
                c == [GetRfStatus(None)]
                || (exists n: nat :: c == [GetRfStatus(Some(n)), GetDiagnostics(None)])
              else
                exists n: nat, t: nat :: c == [GetRfStatus(Some(n)), GetDiagnostics(Some(t))]
                                         && idle.value == (n == 0 && t == 0)
    {
      var remaining := env.RfStatus();
      c := [GetRfStatus(remaining)];
      if remaining.None? {
        return None, c;
      }
      var txActive := env.RfDiagnostics();
      c := [GetRfStatus(remaining), GetDiagnostics(txActive)];
      if txActive.None? {
        return None, c;
      }
      idlePolls := idlePolls + 1;
      idle := Some(remaining.value == 0 && txActive.value == 0);
    }

    /** Poll until RF is idle, a question raises or the timeout has passed; every
        call is accounted for, and there are never more than `MaxPolls` polls. */
    method WaitForTxIdle() returns (ok: bool, ghost c: seq<Call>)
      requires Positive(parameters)
      modifies this`idlePolls, env
      ensures env.trace == old(env.trace) + c && WaitLaw(c, ok, parameters)
      ensures idlePolls == old(idlePolls) + PollsIn(c) && PollsIn(c) <= MaxPolls(parameters)
    {
      hide MaxPolls, Elapsed, PollsIn, Goes;
      var begin := env.Monotonic();
      var deadline := begin + parameters.idleTimeout;
      ghost var k: nat := 0;
      c := [ReadClock(begin)];
      NoneCounted(c);
      ElapsedGrows(0, parameters);
      PollsBounded(0, parameters);
      while true
        invariant c != [] && c[0] == ReadClock(begin) && Opened(c, deadline, parameters.idlePoll)
        invariant env.trace == old(env.trace) + c
        invariant idlePolls == old(idlePolls) + k && PollsIn(c) == k && k + 1 <= MaxPolls(parameters)
        invariant env.clock >= begin + Elapsed(k, parameters) || env.clock >= deadline
        decreases MaxPolls(parameters) - k
      {
        var idle, asked := Poll();
        PollGoes(c, asked, idle, deadline, parameters.idlePoll);
        c := c + asked;
        if idle.None? {
          return false, c;
        }
        if idle.value {
          return true, c;
        }
        var now := env.Monotonic();
        ClockGoes(c, now, deadline, parameters.idlePoll);
        c := c + [ReadClock(now)];
        if now >= deadline {
          return false, c;
        }
        var left := if deadline - now > 0.0 then deadline - now else 0.0;
        var delay := if parameters.idlePoll <= left then parameters.idlePoll else left;
        if delay <= 0.0 {
          return false, c;
        }
        PollsBounded(k, parameters);
        ElapsedGrows(k, parameters);
        env.Sleep(delay);
        SleepGoes(c, deadline, parameters.idlePoll);
        c := c + [Slept(delay)];
        k := k + 1;
      }
    }

    method RestartAndVerifyRx() returns (ok: bool, ghost c: seq<Call>)
      modifies this`rxRestarts, env`trace
      ensures env.trace == old(env.trace) + c && RestartLaw(c, ok)
      ensures rxRestarts == old(rxRestarts) + (if c[0].ok then 1 else 0)
    {
      hide ActiveRx, InactiveRx;
      var started := env.RxStart();
      c := [StartRx(started)];
      if !started {
        return false, c;
      }
      rxRestarts := rxRestarts + 1;
      var status := env.RxStatus();
      c := c + [GetRxStatus(status)];
      ok := status.Some? && ActiveRx(status.value);
    }

    /** Idle wait and restart together: what follows every downstream call. */
    method Restore() returns (ok: bool, ghost c: seq<Call>)
      requires Positive(parameters)
      modifies this`idlePolls, this`rxRestarts, env
      ensures env.trace == old(env.trace) + c && RestoreLaw(c, parameters) && ok == Restored(c)
      ensures idlePolls == old(idlePolls) + PollsIn(c) && PollsIn(c) <= MaxPolls(parameters)
      ensures old(rxRestarts) <= rxRestarts <= old(rxRestarts) + 1
      ensures ok ==> rxRestarts == old(rxRestarts) + 1
    {
      hide MaxPolls, WaitLaw, RestartLaw, PollsIn, Restored, RestoreLaw;
      ok, c := WaitForTxIdle();
      if !ok {
        NotRestored(c, parameters);
        return;
      }
      ghost var more;
      ok, more := RestartAndVerifyRx();
      RestoredIff(c, more, ok, parameters);
      c := c + more;
    }

    /** Prove that reception is active, stop it, and prove that it stopped. */
    method StopAndVerifyRx() returns (ok: bool, ghost c: seq<Call>)
      modifies this`rxStops, env`trace
      ensures env.trace == old(env.trace) + c && StopLaw(c, ok)
      ensures rxStops == old(rxStops) + (if |c| >= 2 && c[1].ok then 1 else 0)
    {
      hide ActiveRx, InactiveRx;
      var before := env.RxStatus();
      c := [GetRxStatus(before)];
      if before.None? || !ActiveRx(before.value) {
        return false, c;
      }
      var stopped := env.RxStop();
      c := c + [StopRx(stopped)];
      if !stopped {
        return false, c;
      }
      rxStops := rxStops + 1;
      var after := env.RxStatus();
      c := c + [GetRxStatus(after)];
      ok := after.Some? && InactiveRx(after.value);
    }

    /** Within a cycle, right after the one downstream call. */
    ghost predicate Handed()
      reads this, env
    {
      && Positive(parameters) && inCycle && !latched
      && started == completed + preFailures + downstreamFailures + postFailures + 1
      && accepted == completed + postFailures && recovered == downstreamFailures
      && preFailures == postFailures == 0
      && rxStops == started && rxRestarts + 1 == started
      && Submits(env.trace) == accepted + downstreamFailures + 1
    }

    /** The rest of a cycle once the downstream submitter has answered. */
    method Settle(receipt: Option<nat>) returns (r: Result<nat, HalfDuplexError>, ghost c: seq<Call>)
      requires Handed()
      modifies this, env
      ensures Valid() && env.trace == old(env.trace) + c && RestoreLaw(c, parameters)
      ensures started == old(started) && preFailures == old(preFailures)
      ensures idlePolls == old(idlePolls) + PollsIn(c) && PollsIn(c) <= MaxPolls(parameters)
      ensures r == if receipt.None? then Err(Downstream)
                   else if Restored(c) then Ok(receipt.value) else Err(PostTransmit)
      ensures latched == !Restored(c)
      ensures completed == old(completed) + (if r.Ok? then 1 else 0)
      ensures downstreamFailures == old(downstreamFailures) + (if receipt.None? then 1 else 0)
      ensures postFailures == old(postFailures) + (if r == Err(PostTransmit) then 1 else 0)
      ensures recovered == old(recovered) + (if receipt.None? && Restored(c) then 1 else 0)
    {
      hide MaxPolls, Submits, Restored, RestoreLaw, PollsIn;
      if receipt.None? {
        downstreamFailures := downstreamFailures + 1;
        var back;
        back, c := Restore();
        RestoreSubmits(c, parameters);
        CountsConcat(old(env.trace), c);
        if back {
          recovered := recovered + 1;
        } else {
          latched := true;
        }
        inCycle := false;
        return Err(Downstream), c;
      }
      accepted := accepted + 1;
      var restored;
      restored, c := Restore();
      RestoreSubmits(c, parameters);
      CountsConcat(old(env.trace), c);
      if !restored {
        postFailures := postFailures + 1;
        latched := true;
        inCycle := false;
        return Err(PostTransmit), c;
      }
      completed := completed + 1;
      inCycle := false;
      r := Ok(receipt.value);
    }

    /** The handoff: reception proven stopped and the frame passed downstream
        once, or a latched failure with nothing passed. */
    method HandOver(frame: Bytes) returns (receipt: Option<nat>, ok: bool, ghost c: seq<Call>)
      requires Valid() && !latched
      modifies this, env`trace
      ensures env.trace == old(env.trace) + c && idlePolls == old(idlePolls) && started == old(started) + 1
      ensures completed == old(completed) && downstreamFailures == old(downstreamFailures)
      ensures postFailures == old(postFailures) && recovered == old(recovered)
      ensures PollsIn(c) == 0
      ensures if ok then Handed() && |c| == 4 && StopLaw(c[..3], true) && c[3] == Submit(frame, receipt)
                         && preFailures == old(preFailures)
              else Valid() && latched && |c| < 4 && StopLaw(c, false) && preFailures == old(preFailures) + 1
    {
      hide MaxPolls, Submits, ActiveRx, InactiveRx, PollsIn;
      inCycle := true;
      started := started + 1;
      ok, c := StopAndVerifyRx();
      StopSubmits(c, ok);
      CountsConcat(old(env.trace), c);
      if !ok {
        preFailures := preFailures + 1;
        latched := true;
        inCycle := false;
        return None, false, c;
      }
      receipt := env.SubmitFrame(frame);
      OneMore(old(env.trace) + c, Submit(frame, receipt));
      OneMore(c, Submit(frame, receipt));
      assert (c + [Submit(frame, receipt)])[..3] == c;
      c := c + [Submit(frame, receipt)];
    }

    /** One complete half-duplex cycle.  A latched lifecycle touches nothing, and
        so does a bad timeout.  Otherwise answer, latch and counters are those of
        the calls made. */
    method SubmitFrame(frame: Bytes, timeout: Option<real>)
      returns (r: Result<nat, HalfDuplexError>, ghost c: seq<Call>)
      requires Valid()
      modifies this, env
      ensures Valid() && env.trace == old(env.trace) + c
      ensures r == Err(Latched) <==> old(latched)
      ensures r == Err(BadTimeout) <==> !old(latched) && timeout.Some? && timeout.value <= 0.0
      ensures r == Err(Latched) || r == Err(BadTimeout) ==>
                && c == [] && latched == old(latched) && started == old(started) && completed == old(completed)
                && preFailures == old(preFailures) && downstreamFailures == old(downstreamFailures)
                && postFailures == old(postFailures) && recovered == old(recovered)
      ensures r != Err(Latched) && r != Err(BadTimeout) ==>
                && CycleLaw(c, frame, parameters) && r == CycleResult(c) && latched == CycleLatches(c)
                && started == old(started) + 1
                && completed == old(completed) + (if r.Ok? then 1 else 0)
                && preFailures == old(preFailures) + (if r == Err(PreTransmit) then 1 else 0)
                && downstreamFailures == old(downstreamFailures) + (if r == Err(Downstream) then 1 else 0)
                && postFailures == old(postFailures) + (if r == Err(PostTransmit) then 1 else 0)
                && recovered == old(recovered) + (if r == Err(Downstream) && !latched then 1 else 0)
      ensures idlePolls == old(idlePolls) + PollsIn(c) && PollsIn(c) <= MaxPolls(parameters)
    {
      hide MaxPolls, Submits, Restored, RestoreLaw, StopLaw, PollsIn;
      NoneCounted([]);
      assert MaxPolls(parameters) >= 0 by { ElapsedGrows(0, parameters); PollsBounded(0, parameters); }
      c := [];
      if latched {
        return Err(Latched), c;
      }
      if inCycle {
        return Err(Latched), c;
      }
      var transactionTimeout := if timeout.Some? then timeout.value else parameters.transactionTimeout;
      if transactionTimeout <= 0.0 {
        return Err(BadTimeout), c;
      }
      var receipt, ok;
      receipt, ok, c := HandOver(frame);
      if !ok {
        return Err(PreTransmit), c;
      }
      ghost var more;
      r, more := Settle(receipt);
      CountsConcat(c, more);
      assert (c + more)[..3] == c[..3] && (c + more)[3] == c[3] && (c + more)[4..] == more;
      c := c + more;
    }
  }
}
