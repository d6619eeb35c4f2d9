/** The streaming Bell-202 receiver.  `Direct` demodulates from the complete
    sample history with no buffers and no schedule; the class keeps only two
    128-slot tagged rings and a priority queue of due symbols, and is proved to
    compute exactly what `Direct` computes, however the samples are split into
    calls. */
module Demodulator {
  import opened Primitives
  import opened Hdlc
  import opened Deframer

  const WINDOW := 12
  const HISTORY := 128
  const SAMPLE_RATE := 19200.0
  const TOLERANCE := 960

  /** The precomputed metric of a twelve-sample pattern. */
  type MetricTable = Bits -> real

  // ---- Direct demodulation over the full history

  datatype Hypothesis = Hypothesis(baud: real, phase: real, period: real, nextEnd: real, rx: Receiver)

  datatype Occurrence = Occurrence(frame: Bytes, start: int, end: int, baud: real, phase: real)

  /** The whole bank: every hypothesis, the occurrences with their earliest
      timestamps, every occurrence in the order it was reported, and counters. */
  datatype Bank = Bank(hyps: seq<Hypothesis>, occurrences: seq<Occurrence>, log: seq<Occurrence>,
                       valid: nat, duplicates: nat, decisions: nat)

  function SymbolEnd(h: Hypothesis): int { Round(h.nextEnd) }
  function Boundary(h: Hypothesis): int { Round(h.nextEnd - h.period) }
  function Centered(h: Hypothesis): int { Round(Boundary(h) as real + (h.period - 12.0) * 0.5) }

  /** Symbol periods for which a correlation window fits inside a symbol and a
      symbol fits inside the rings; 160 to 1476 baud, so the 1196..1204 bank. */
  predicate WellTimed(h: Hypothesis) {
    13.0 < h.period <= 120.0 && h.nextEnd - h.period >= 0.0
  }

  lemma SymbolGeometry(h: Hypothesis)
    requires WellTimed(h)
    ensures 0 <= Boundary(h) && Boundary(h) + 2 <= SymbolEnd(h) <= Boundary(h) + 121
    ensures 0 <= Centered(h) && Centered(h) + WINDOW <= SymbolEnd(h) <= Centered(h) + 121
    ensures Round(h.nextEnd + h.period) > SymbolEnd(h)
  {
  }

  /** Changes of level among the first `n` samples. */
  function Transitions(samples: Bits, n: nat): (t: nat)
    requires n <= |samples|
  {
    if n <= 1 then 0 else Transitions(samples, n - 1) + (if samples[n - 1] != samples[n - 2] then 1 else 0)
  }

  lemma {:induction false} TransitionsMonotone(samples: Bits, m: nat, n: nat)
    requires m <= n <= |samples|
    ensures Transitions(samples, m) <= Transitions(samples, n)
    decreases n
  {
    if m < n { TransitionsMonotone(samples, m, n - 1); }
  }

  lemma {:induction false} TransitionsOfPrefix(samples: Bits, more: Bits, n: nat)
    requires n <= |samples|
    ensures Transitions(samples + more, n) == Transitions(samples, n)
  {
    if n > 1 { TransitionsOfPrefix(samples, more, n - 1); }
  }

  /** The tone decided for the symbol that `h` classifies next. */
  function Decided(h: Hypothesis, table: MetricTable, samples: Bits): bool
    requires WellTimed(h) && SymbolEnd(h) <= |samples|
  {
    SymbolGeometry(h);
    var norm := table(samples[Centered(h)..Centered(h) + WINDOW]);
    if norm >= 0.12 || norm <= -0.12 then norm > 0.0
    else Transitions(samples, SymbolEnd(h)) - Transitions(samples, Boundary(h) + 1) >= 3
  }

  function SymbolOf(h: Hypothesis, table: MetricTable, samples: Bits): Symbol
    requires WellTimed(h) && SymbolEnd(h) <= |samples|
  {
    Symbol(Decided(h, table, samples), if SymbolEnd(h) >= 1 then SymbolEnd(h) - 1 else 0)
  }

  // ---- What a symbol's tone means on the samples

  /** The positions at which the level differs from that of the sample before,
      strictly inside `[a, b)`. */
  function LevelChanges(samples: Bits, a: nat, b: nat): set<int>
    requires b <= |samples|
  {
    set k | a < k < b && ChangesAt(samples, k)
  }

  predicate ChangesAt(samples: Bits, k: int) { 0 < k < |samples| && samples[k] != samples[k - 1] }

  lemma {:induction false} TransitionsCountChanges(samples: Bits, a: nat, b: nat)
    requires a < b <= |samples|
    ensures Transitions(samples, b) - Transitions(samples, a + 1) == |LevelChanges(samples, a, b)|
    decreases b
  {
    if b == a + 1 {
      assert LevelChanges(samples, a, b) == {};
    } else {
      TransitionsCountChanges(samples, a, b - 1);
      var last := if samples[b - 1] != samples[b - 2] then {b - 1} else {};
      assert LevelChanges(samples, a, b) == LevelChanges(samples, a, b - 1) + last;
    }
  }

  /** The position is at most one sample off the middle of the symbol. */
  predicate Middle(h: Hypothesis, c: int) {
    -1.0 <= c as real + WINDOW as real / 2.0 - (h.nextEnd - h.period / 2.0) <= 1.0
  }

  /** An integer next to an instant. */
  predicate Beside(n: int, x: real) { -0.5 <= n as real - x <= 0.5 }

  /** The decision, on the samples: a metric of at least 0.12 either way is
      followed whatever the level changes, any other leaves it to whether there
      are three of them in the symbol; and the twelve samples are those in the
      middle of the symbol. */
  lemma ToneLaw(h: Hypothesis, table: MetricTable, samples: Bits) returns (b: nat, c: nat, e: nat)
    requires WellTimed(h) && SymbolEnd(h) <= |samples|
    ensures Beside(b, h.nextEnd - h.period) && Middle(h, c) && Beside(e, h.nextEnd) && e <= |samples|
    ensures c + WINDOW <= |samples| && b < e
    ensures var y, metric := SymbolOf(h, table, samples), table(samples[c..c + WINDOW]);
            && y.at == e - 1
            && (metric >= 0.12 ==> y.selector)
            && (metric <= -0.12 ==> !y.selector)
            && (-0.12 < metric < 0.12 ==> (y.selector <==> |LevelChanges(samples, b, e)| >= 3))
  {
    SymbolGeometry(h);
    b, c, e := Boundary(h), Centered(h), SymbolEnd(h);
    TransitionsCountChanges(samples, b, e);
  }

  /** However the symbol's limits and middle are rounded, it sounds like `tone`:
      wherever the window may lie, the metric says so, or leaves it open and the
      level changes say so. */
  ghost predicate Sounds(h: Hypothesis, table: MetricTable, samples: Bits, tone: bool) {
    forall c: nat :: c + WINDOW <= |samples| && Middle(h, c) ==>
      var metric := table(samples[c..c + WINDOW]);
      && (metric >= 0.12 ==> tone)
      && (metric <= -0.12 ==> !tone)
      && (-0.12 < metric < 0.12 ==>
            forall b: nat, e: nat :: Beside(b, h.nextEnd - h.period) && Beside(e, h.nextEnd) && e <= |samples| ==>
              (tone <==> |LevelChanges(samples, b, e)| >= 3))
  }

  /** A symbol that sounds like a tone is decided as that tone. */
  lemma SoundIsDecided(h: Hypothesis, table: MetricTable, samples: Bits, tone: bool)
    requires WellTimed(h) && SymbolEnd(h) <= |samples| && Sounds(h, table, samples, tone)
    ensures SymbolOf(h, table, samples).selector == tone
  {
    hide SymbolOf, WellTimed, SymbolEnd, Middle, Beside, LevelChanges;
    var b, c, e := ToneLaw(h, table, samples);
    assert samples[c..c + WINDOW] == samples[c..c + WINDOW];
  }

  function Distance(a: int, b: int): nat { if a <= b then b - a else a - b }

  predicate SameOccurrence(a: Occurrence, b: Occurrence) {
    a.frame == b.frame && Distance(a.start, b.start) <= TOLERANCE
  }

  /** The first recorded occurrence that `item` repeats, or the number of them. */
  function DuplicateIndex(occurrences: seq<Occurrence>, item: Occurrence): (i: nat)
    ensures i <= |occurrences|
    ensures i < |occurrences| ==> SameOccurrence(occurrences[i], item)
    ensures forall k :: 0 <= k < i ==> !SameOccurrence(occurrences[k], item)
  {
    if occurrences == [] || SameOccurrence(occurrences[0], item) then 0
    else 1 + DuplicateIndex(occurrences[1..], item)
  }

  function Accept(b: Bank, item: Occurrence): Bank {
    var i := DuplicateIndex(b.occurrences, item);
    if i == |b.occurrences| then
      b.(occurrences := b.occurrences + [item], log := b.log + [item], valid := b.valid + 1)
    else
      b.(duplicates := b.duplicates + 1,
         occurrences := if item.start < b.occurrences[i].start then b.occurrences[i := item] else b.occurrences)
  }

  function AcceptAll(b: Bank, found: seq<Found>, h: Hypothesis): Bank
    decreases |found|
  {
    if found == [] then b else
      AcceptAll(Accept(b, Occurrence(found[0].frame, found[0].start, found[0].end, h.baud, h.phase)), found[1..], h)
  }

  lemma {:induction false} AcceptAllKeeps(b: Bank, found: seq<Found>, h: Hypothesis)
    ensures var b' := AcceptAll(b, found, h);
            b'.hyps == b.hyps && b'.decisions == b.decisions && b.log <= b'.log
    decreases |found|
  {
    if found != [] {
      var item := Occurrence(found[0].frame, found[0].start, found[0].end, h.baud, h.phase);
      AcceptAllKeeps(Accept(b, item), found[1..], h);
    }
  }

  function Advanced(h: Hypothesis, table: MetricTable, samples: Bits): (Hypothesis, seq<Found>)
    requires WellTimed(h) && SymbolEnd(h) <= |samples|
  {
    var (rx, found) := Receive(h.rx, SymbolOf(h, table, samples), h.period);
    (h.(rx := rx, nextEnd := h.nextEnd + h.period), found)
  }

  /** Hypothesis `j` classifies its due symbol. */
  function Process(b: Bank, j: nat, table: MetricTable, samples: Bits): (b': Bank)
    requires j < |b.hyps| && WellTimed(b.hyps[j]) && SymbolEnd(b.hyps[j]) <= |samples|
    ensures b'.hyps == b.hyps[j := Advanced(b.hyps[j], table, samples).0]
    ensures b'.decisions == b.decisions + 1 && b.log <= b'.log
  {
    var (h, found) := Advanced(b.hyps[j], table, samples);
    AcceptAllKeeps(b.(hyps := b.hyps[j := h], decisions := b.decisions + 1), found, h);
    AcceptAll(b.(hyps := b.hyps[j := h], decisions := b.decisions + 1), found, h)
  }

  predicate AllWellTimed(hyps: seq<Hypothesis>) { forall j :: 0 <= j < |hyps| ==> WellTimed(hyps[j]) }

  /** Every hypothesis from the `j`th on whose symbol ends with the last sample. */
  function ScanFrom(b: Bank, j: nat, table: MetricTable, samples: Bits): (b': Bank)
    requires j <= |b.hyps| && AllWellTimed(b.hyps)
    ensures |b'.hyps| == |b.hyps| && AllWellTimed(b'.hyps) && b.log <= b'.log
    ensures forall i :: 0 <= i < j ==> b'.hyps[i] == b.hyps[i]
    ensures forall i :: j <= i < |b.hyps| ==>
      b'.hyps[i] == if SymbolEnd(b.hyps[i]) == |samples| then Advanced(b.hyps[i], table, samples).0 else b.hyps[i]
    decreases |b.hyps| - j
  {
    if j == |b.hyps| then b
    else if SymbolEnd(b.hyps[j]) == |samples| then ScanFrom(Process(b, j, table, samples), j + 1, table, samples)
    else ScanFrom(b, j + 1, table, samples)
  }

  /** Everything the receiver knows after `samples`. */
  function Direct(b: Bank, table: MetricTable, samples: Bits): (b': Bank)
    requires AllWellTimed(b.hyps)
    ensures |b'.hyps| == |b.hyps| && AllWellTimed(b'.hyps)
    decreases |samples|
  {
    if samples == [] then b else ScanFrom(Direct(b, table, samples[..|samples| - 1]), 0, table, samples)
  }

  lemma {:induction false} ScanSkips(b: Bank, j: nat, k: nat, table: MetricTable, samples: Bits)
    requires j <= k <= |b.hyps| && AllWellTimed(b.hyps)
    requires forall i :: j <= i < k ==> SymbolEnd(b.hyps[i]) != |samples|
    ensures ScanFrom(b, j, table, samples) == ScanFrom(b, k, table, samples)
    decreases k - j
  {
    if j < k { ScanSkips(b, j + 1, k, table, samples); }
  }

  // ---- The streaming decoder

  /** A scheduled symbol: its end, then the order of its hypothesis. */
  predicate Sooner(a: (int, nat), b: (int, nat)) { a.0 < b.0 || (a.0 == b.0 && a.1 <= b.1) }

  ghost predicate IsSoonest(schedule: set<(int, nat)>, e: (int, nat)) {
    e in schedule && forall x :: x in schedule ==> Sooner(e, x)
  }

  lemma {:induction false} SoonestExists(schedule: set<(int, nat)>)
    requires schedule != {}
    ensures exists e :: IsSoonest(schedule, e)
    decreases |schedule|
  {
    var x :| x in schedule;
    if schedule == {x} {
      assert IsSoonest(schedule, x);
    } else {
      var rest := schedule - {x};
      assert rest != {};
      SoonestExists(rest);
      var e :| IsSoonest(rest, e);
      var least := if Sooner(x, e) then x else e;
      forall y | y in schedule ensures Sooner(least, y) {
        assert y == x || y in rest;
      }
      assert IsSoonest(schedule, least);
    }
  }

  /** Each hypothesis is scheduled once, at the end of its next symbol. */
  ghost predicate Scheduled(schedule: set<(int, nat)>, hyps: seq<Hypothesis>) {
    && (forall j :: 0 <= j < |hyps| ==> (SymbolEnd(hyps[j]), j) in schedule)
    && (forall e :: e in schedule ==> e.1 < |hyps| && e.0 == SymbolEnd(hyps[e.1]))
  }

  /** No hypothesis awaits a symbol that ends before `n`. */
  ghost predicate AllEndFrom(hyps: seq<Hypothesis>, n: int) {
    forall j :: 0 <= j < |hyps| ==> SymbolEnd(hyps[j]) >= n
  }

  /** If nothing is overdue, a due head is due now and is the first such in
      bank order; if the head is not due, nothing is. */
  lemma HeadOfSchedule(schedule: set<(int, nat)>, hyps: seq<Hypothesis>, e: (int, nat), n: int)
    requires Scheduled(schedule, hyps) && IsSoonest(schedule, e) && AllEndFrom(hyps, n)
    ensures e.1 < |hyps| && SymbolEnd(hyps[e.1]) == e.0
    ensures e.0 <= n ==> e.0 == n && forall j :: 0 <= j < e.1 ==> SymbolEnd(hyps[j]) != n
    ensures e.0 > n ==> AllEndFrom(hyps, n + 1)
  {
    hide SymbolEnd;
    forall j | 0 <= j < |hyps| ensures Sooner(e, (SymbolEnd(hyps[j]), j)) { }
  }

  lemma Rescheduled(schedule: set<(int, nat)>, hyps: seq<Hypothesis>, e: (int, nat), h: Hypothesis)
    requires Scheduled(schedule, hyps) && e in schedule
    ensures Scheduled(schedule - {e} + {(SymbolEnd(h), e.1)}, hyps[e.1 := h])
  {
    hide SymbolEnd;
  }

  /** `heapq.heappop`: remove and return the least entry. */
  method HeapPop(schedule: set<(int, nat)>) returns (e: (int, nat), rest: set<(int, nat)>)
    requires schedule != {}
    ensures IsSoonest(schedule, e) && rest == schedule - {e}
  {
    SoonestExists(schedule);
    e :| e in schedule && forall x :: x in schedule ==> Sooner(e, x);
    rest := schedule - {e};
  }

  lemma RingSlots(a: int, b: int)
    requires 0 <= a < b < a + HISTORY
    ensures a % HISTORY != b % HISTORY
  {
  }

  /** Every tag is the mark of a slot never written, or a value from `from` on
      that belongs into its slot and is among the newest 128 up to `last`. */
  ghost predicate OnlyNewest(tags: seq<int>, from: int, last: int) {
    forall s :: 0 <= s < |tags| ==>
        tags[s] == -1 || (tags[s] % HISTORY == s && from <= tags[s] <= last < tags[s] + HISTORY)
  }

  lemma StillOnlyNewest(tags: seq<int>, from: int, last: int)
    requires OnlyNewest(tags, from, last) && |tags| == HISTORY && 0 <= from <= last + 1
    ensures OnlyNewest(tags[(last + 1) % HISTORY := last + 1], from, last + 1)
  {
    var tags' := tags[(last + 1) % HISTORY := last + 1];
    forall s | 0 <= s < |tags'| && tags'[s] != -1
      ensures tags'[s] % HISTORY == s && from <= tags'[s] <= last + 1 < tags'[s] + HISTORY
    {
      if s != (last + 1) % HISTORY && tags[s] == last + 1 - HISTORY {
        SameSlot(tags[s]);
      }
    }
  }

  lemma SameSlot(k: int)
    ensures (k + HISTORY) % HISTORY == k % HISTORY
  {
  }

  /** After the samples, slot `k % 128` holds entry `k` for each of the newest
      128 prefixes, and no slot holds any other. */
  ghost predicate HoldsTransitions(tags: seq<int>, prefix: seq<int>, samples: Bits) {
    && |tags| == |prefix| == HISTORY && OnlyNewest(tags, 1, |samples|)
    && forall k: int :: 1 <= k <= |samples| < k + HISTORY ==>
         tags[k % HISTORY] == k && prefix[k % HISTORY] == Transitions(samples, k)
  }

  ghost predicate HoldsMetrics(tags: seq<int>, values: seq<real>, table: MetricTable, samples: Bits) {
    && |tags| == |values| == HISTORY && OnlyNewest(tags, 0, |samples| - WINDOW)
    && forall k: int :: 0 <= k && k + WINDOW <= |samples| < k + WINDOW + HISTORY ==>
         tags[k % HISTORY] == k && values[k % HISTORY] == table(samples[k..k + WINDOW])
  }

  lemma StoredTransition(tags: seq<int>, prefix: seq<int>, samples: Bits, raw: bool)
    requires HoldsTransitions(tags, prefix, samples)
    ensures var s := samples + [raw];
            var slot := |s| % HISTORY;
            HoldsTransitions(tags[slot := |s|], prefix[slot := Transitions(s, |s|)], s)
  {
    hide OnlyNewest;
    var s := samples + [raw];
    StillOnlyNewest(tags, 1, |samples|);
    forall k: int | 1 <= k <= |samples| < k + HISTORY - 1
      ensures k % HISTORY != |s| % HISTORY && Transitions(s, k) == Transitions(samples, k)
    {
      RingSlots(k, |s|);
      TransitionsOfPrefix(samples, [raw], k);
    }
  }

  lemma StoredMetric(tags: seq<int>, values: seq<real>, table: MetricTable, samples: Bits, raw: bool)
    requires HoldsMetrics(tags, values, table, samples) && |samples| + 1 >= WINDOW
    ensures var s := samples + [raw];
            var start := |s| - WINDOW;
            HoldsMetrics(tags[start % HISTORY := start], values[start % HISTORY := table(s[start..])], table, s)
  {
    hide OnlyNewest;
    var s := samples + [raw];
    var start := |s| - WINDOW;
    StillOnlyNewest(tags, 0, start - 1);
    assert s[start..start + WINDOW] == s[start..];
    forall k: int | 0 <= k < start < k + HISTORY
      ensures k % HISTORY != start % HISTORY && s[k..k + WINDOW] == samples[k..k + WINDOW]
    {
      RingSlots(k, start);
    }
  }

  function Fresh(baud: real, phase: real): Hypothesis
    requires baud > 0.0
  {
    var period := SAMPLE_RATE / baud;
    Hypothesis(baud, phase, period, phase + period, NewReceiver())
  }

  function PhaseRow(baud: real, phases: seq<real>): (hyps: seq<Hypothesis>)
    requires baud > 0.0
    ensures |hyps| == |phases|
  {
    seq(|phases|, i requires 0 <= i < |phases| => Fresh(baud, phases[i]))
  }

  /** Every baud rate with every phase. */
  function InitialHypotheses(bauds: seq<real>, phases: seq<real>): seq<Hypothesis>
    requires forall i :: 0 <= i < |bauds| ==> bauds[i] > 0.0
  {
    if bauds == [] then [] else PhaseRow(bauds[0], phases) + InitialHypotheses(bauds[1..], phases)
  }

  /** The inner loop of the constructor: one baud rate with every phase. */
  method BuildRow(baud: real, phases: seq<real>) returns (row: seq<Hypothesis>)
    requires baud > 0.0
    ensures row == PhaseRow(baud, phases)
  {
    hide Fresh;
    row := [];
    for k := 0 to |phases|
      invariant row == PhaseRow(baud, phases)[..k]
    {
      row := row + [Fresh(baud, phases[k])];
    }
  }

  method BuildBank(bauds: seq<real>, phases: seq<real>) returns (hyps: seq<Hypothesis>)
    requires forall i :: 0 <= i < |bauds| ==> bauds[i] > 0.0
    ensures hyps == InitialHypotheses(bauds, phases)
  {
    hide PhaseRow, InitialHypotheses;
    hyps := [];
    assert bauds[0..] == bauds && [] + InitialHypotheses(bauds, phases) == InitialHypotheses(bauds, phases);
    for i := 0 to |bauds|
      invariant hyps + InitialHypotheses(bauds[i..], phases) == InitialHypotheses(bauds, phases)
    {
      assert bauds[i..][0] == bauds[i] && bauds[i..][1..] == bauds[i + 1..];
      BankStep(hyps, bauds[i..], phases);
      var row := BuildRow(bauds[i], phases);
      hyps := hyps + row;
    }
    assert bauds[|bauds|..] == [];
    BankEnd(hyps, phases);
  }

  lemma BankStep(done: seq<Hypothesis>, bauds: seq<real>, phases: seq<real>)
    requires bauds != [] && forall i :: 0 <= i < |bauds| ==> bauds[i] > 0.0
    ensures done + InitialHypotheses(bauds, phases)
         == (done + PhaseRow(bauds[0], phases)) + InitialHypotheses(bauds[1..], phases)
  {
    hide PhaseRow;
  }

  lemma BankEnd(done: seq<Hypothesis>, phases: seq<real>)
    ensures done + InitialHypotheses([], phases) == done
  {
  }

  lemma {:induction false} BankEntryWellTimed(bauds: seq<real>, phases: seq<real>, j: nat)
    requires forall i :: 0 <= i < |bauds| ==> 160.0 <= bauds[i] <= 1476.0
    requires forall i :: 0 <= i < |phases| ==> phases[i] >= 0.0
    requires j < |InitialHypotheses(bauds, phases)|
    ensures var h := InitialHypotheses(bauds, phases)[j]; Constructed(h) && WellTimed(h) && SymbolEnd(h) >= 1
    decreases |bauds|
  {
    hide Fresh;
    if j < |phases| {
      assert InitialHypotheses(bauds, phases)[j] == PhaseRow(bauds[0], phases)[j] == Fresh(bauds[0], phases[j]);
      FreshWellTimed(bauds[0], phases[j]);
    } else {
      BankEntryWellTimed(bauds[1..], phases, j - |phases|);
    }
  }

  /** Where each baud rate and phase stands in the bank, and how it is timed:
      its symbols are 19200/baud samples long and the first begins at the phase. */
  lemma {:induction false} BankEntry(bauds: seq<real>, phases: seq<real>, i: nat, k: nat)
    requires (forall n :: 0 <= n < |bauds| ==> bauds[n] > 0.0) && i < |bauds| && k < |phases|
    ensures var hyps := InitialHypotheses(bauds, phases);
            && |hyps| == |bauds| * |phases| && i * |phases| + k < |hyps|
            && var h := hyps[i * |phases| + k];
               && h.baud == bauds[i] && h.phase == phases[k] && h.period * bauds[i] == 19200.0
               && h.nextEnd - h.period == phases[k]
    decreases |bauds|
  {
    hide Fresh, InitialHypotheses, PhaseRow;
    BankSize(bauds, phases);
    Offsets(|bauds|, |phases|, i, k);
    BankSplit(bauds, phases);
    var row, rest := PhaseRow(bauds[0], phases), InitialHypotheses(bauds[1..], phases);
    if i == 0 {
      assert (row + rest)[k] == row[k];
      FreshTiming(bauds[0], phases[k]);
    } else {
      BankEntry(bauds[1..], phases, i - 1, k);
      assert (row + rest)[i * |phases| + k] == rest[(i - 1) * |phases| + k];
    }
  }

  lemma BankSplit(bauds: seq<real>, phases: seq<real>)
    requires bauds != [] && forall i :: 0 <= i < |bauds| ==> bauds[i] > 0.0
    ensures InitialHypotheses(bauds, phases) == PhaseRow(bauds[0], phases) + InitialHypotheses(bauds[1..], phases)
    ensures forall k :: 0 <= k < |phases| ==> PhaseRow(bauds[0], phases)[k] == Fresh(bauds[0], phases[k])
  {
    hide Fresh;
  }

  lemma FreshTiming(baud: real, phase: real)
    requires baud > 0.0
    ensures var h := Fresh(baud, phase);
            h.baud == baud && h.phase == phase && h.period * baud == 19200.0 && h.nextEnd - h.period == phase
  {
  }

  lemma Offsets(m: nat, n: nat, i: nat, k: nat)
    requires i < m && k < n
    ensures i * n + k < m * n && i * n >= 0
    ensures i > 0 ==> i * n + k == n + ((i - 1) * n + k) && (i - 1) * n >= 0
    ensures i == 0 ==> i * n + k == k
  {
    assert (i + 1) * n <= m * n;
    assert (i + 1) * n == i * n + n;
  }

  lemma {:induction false} BankSize(bauds: seq<real>, phases: seq<real>)
    requires forall n :: 0 <= n < |bauds| ==> bauds[n] > 0.0
    ensures |InitialHypotheses(bauds, phases)| == |bauds| * |phases|
  {
    if bauds != [] {
      BankSize(bauds[1..], phases);
      assert |bauds| * |phases| == |phases| + (|bauds| - 1) * |phases|;
    }
  }

  lemma BankWellTimed(bauds: seq<real>, phases: seq<real>)
    requires forall i :: 0 <= i < |bauds| ==> 160.0 <= bauds[i] <= 1476.0
    requires forall i :: 0 <= i < |phases| ==> phases[i] >= 0.0
    ensures AllWellTimed(InitialHypotheses(bauds, phases)) && AllEndFrom(InitialHypotheses(bauds, phases), 1)
    ensures AllConstructed(InitialHypotheses(bauds, phases))
  {
    hide WellTimed, SymbolEnd, Constructed;
    var hyps := InitialHypotheses(bauds, phases);
    forall j | 0 <= j < |hyps| ensures Constructed(hyps[j]) && WellTimed(hyps[j]) && SymbolEnd(hyps[j]) >= 1 {
      BankEntryWellTimed(bauds, phases, j);
    }
  }

  lemma FreshWellTimed(baud: real, phase: real)
    requires 160.0 <= baud <= 1476.0 && phase >= 0.0
    ensures var h := Fresh(baud, phase); Constructed(h) && WellTimed(h) && SymbolEnd(h) >= 1
  {
    PeriodInRange(baud);
  }

  lemma PeriodInRange(baud: real)
    requires 160.0 <= baud <= 1476.0
    ensures 13.0 < SAMPLE_RATE / baud <= 120.0
  {
    var period := SAMPLE_RATE / baud;
    assert period * baud == SAMPLE_RATE;
  }

  class StreamingBell202Decoder {
    const table: MetricTable
    var hypotheses: seq<Hypothesis>
    var schedule: set<(int, nat)>
    var sampleIndex: int
    var occurrences: seq<Occurrence>
    var validFrames: nat
    var duplicates: nat
    var decisions: nat

    var metricRegister: Bits
    var metricSampleCount: nat
    const metricTags: array<int>
    const metricValues: array<real>
    const transitionTags: array<int>
    const transitionPrefix: array<int>
    var transitionsTotal: nat
    var previousRaw: Option<bool>

    /** Every occurrence reported so far; the list of fresh ones that `feed`
        threads through its callees is a tail of it. */
    var log: seq<Occurrence>

    /** Every sample ever fed, and the bank as constructed. */
    ghost var samples: Bits
    ghost const initial: Bank

    constructor (bauds: seq<real>, phases: seq<real>, table: MetricTable)
      requires bauds != [] && phases != []
      requires forall i :: 0 <= i < |bauds| ==> 160.0 <= bauds[i] <= 1476.0
      requires forall i :: 0 <= i < |phases| ==> phases[i] >= 0.0
      ensures Valid() && samples == [] && log == [] && this.table == table
      ensures hypotheses == InitialHypotheses(bauds, phases) == initial.hyps
      ensures fresh(metricTags) && fresh(metricValues) && fresh(transitionTags) && fresh(transitionPrefix)
    {
      var hyps := BuildBank(bauds, phases);
      this.table := table;
      hypotheses := hyps;
      schedule := set j | 0 <= j < |hyps| :: (SymbolEnd(hyps[j]), j);
      sampleIndex := -1;
      occurrences, log, validFrames, duplicates, decisions := [], [], 0, 0, 0;
      metricRegister := seq(WINDOW, _ => false);
      metricSampleCount := 0;
      metricTags := new int[HISTORY](_ => -1);
      metricValues := new real[HISTORY](_ => 0.0);
      transitionTags := new int[HISTORY](_ => -1);
      transitionPrefix := new int[HISTORY](_ => 0);
      transitionsTotal := 0;
      previousRaw := None;
      samples := [];
      initial := Bank(hyps, [], [], 0, 0, 0);
      new;
      BankWellTimed(bauds, phases);
    }

    ghost function View(): Bank
      reads this
    {
      Bank(hypotheses, occurrences, log, validFrames, duplicates, decisions)
    }

    ghost predicate Separate()
    {
      metricTags != transitionTags && metricTags != transitionPrefix && transitionTags != transitionPrefix
    }

    /** The rings and registers agree with the sample history. */
    ghost predicate RingsValid()
      reads this`samples, this`sampleIndex, this`metricSampleCount, this`metricRegister
      reads this`transitionsTotal, this`previousRaw
      reads metricTags, metricValues, transitionTags, transitionPrefix
    {
      && Separate()
      && sampleIndex == |samples| - 1
      && metricSampleCount == |samples|
      && HoldsWindow(metricRegister, samples)
      && transitionsTotal == Transitions(samples, |samples|)
      && previousRaw == (if samples == [] then None else Some(samples[|samples| - 1]))
      && HoldsTransitions(transitionTags[..], transitionPrefix[..], samples)
      && HoldsMetrics(metricTags[..], metricValues[..], table, samples)
    }

    /** Each hypothesis is scheduled once, at the end of its next symbol. */
    ghost predicate ScheduleValid()
      reads this`hypotheses, this`schedule
    {
      AllWellTimed(hypotheses) && Scheduled(schedule, hypotheses)
    }

    ghost predicate Valid()
      reads this, metricTags, metricValues, transitionTags, transitionPrefix
    {
      && RingsValid() && ScheduleValid()
      && AllWellTimed(initial.hyps) && Unused(initial) && AllConstructed(initial.hyps)
      && View() == Direct(initial, table, samples)
      && AllEndFrom(hypotheses, |samples| + 1)
    }

    method StoreTransitionPrefix(prefixIndex: nat)
      requires Separate() && transitionTags.Length == transitionPrefix.Length == HISTORY
      modifies transitionTags, transitionPrefix
      ensures var slot := prefixIndex % HISTORY;
              && transitionTags[..] == old(transitionTags[..])[slot := prefixIndex]
              && transitionPrefix[..] == old(transitionPrefix[..])[slot := transitionsTotal]
    {
      var slot := prefixIndex % HISTORY;
      transitionTags[slot] := prefixIndex;
      transitionPrefix[slot] := transitionsTotal;
    }

    /** The tagged lookup hits exactly within the ring's reach, and then gives
        the true number of level changes in the prefix.  (Asked for -1, the mark
        of an unwritten slot, it may answer anything.) */
    method TransitionValue(prefixIndex: int) returns (v: Option<int>)
      requires RingsValid()
      ensures prefixIndex != -1 ==>
                v == if 1 <= prefixIndex <= |samples| < prefixIndex + HISTORY
                     then Some(Transitions(samples, prefixIndex)) else None
    {
      var slot := prefixIndex % HISTORY;
      v := if transitionTags[slot] != prefixIndex then None else Some(transitionPrefix[slot]);
    }

    /** The true number of level changes within the symbol if the ring reaches
        back that far, otherwise zero. */
    method TransitionCount(start: int, end: int) returns (n: int)
      requires RingsValid()
      ensures start != -2 ==>
                n == if 0 <= start && start + 2 <= end <= |samples| < start + 1 + HISTORY
                     then Transitions(samples, end) - Transitions(samples, start + 1) else 0
    {
      hide Transitions, RingsValid;
      if end - start < 2 {
        return 0;
      }
      var left := TransitionValue(start + 1);
      var right := TransitionValue(end);
      if left.None? || right.None? {
        return 0;
      }
      if start != -2 {
        TransitionsMonotone(samples, start + 1, end);
      }
      n := if right.value - left.value > 0 then right.value - left.value else 0;
    }

    /** The metric half of absorbing one sample. */
    method StoreMetric(raw: bool)
      requires Separate() && sampleIndex == metricSampleCount == |samples| && HoldsWindow(metricRegister, samples)
      requires HoldsMetrics(metricTags[..], metricValues[..], table, samples)
      modifies this`metricRegister, this`metricSampleCount, metricTags, metricValues
      ensures metricSampleCount == |samples| + 1 && HoldsWindow(metricRegister, samples + [raw])
      ensures HoldsMetrics(metricTags[..], metricValues[..], table, samples + [raw])
    {
      hide HoldsMetrics, HoldsWindow;
      assert metricTags.Length == metricValues.Length == HISTORY by {
        MetricRingSize(metricTags[..], metricValues[..], table, samples);
      }
      RegisterShift(metricRegister, samples, raw);
      metricRegister := metricRegister[1..] + [raw];
      metricSampleCount := metricSampleCount + 1;
      if metricSampleCount < WINDOW {
        ShortHistory(metricTags[..], metricValues[..], table, samples, raw);
        return;
      }
      StoredMetric(metricTags[..], metricValues[..], table, samples, raw);
      StoreMetricSlot(sampleIndex - WINDOW + 1, table(metricRegister));
    }

    method StoreMetricSlot(start: nat, value: real)
      requires Separate() && metricTags.Length == metricValues.Length == HISTORY
      modifies metricTags, metricValues
      ensures metricTags[..] == old(metricTags[..])[start % HISTORY := start]
      ensures metricValues[..] == old(metricValues[..])[start % HISTORY := value]
    {
      var slot := start % HISTORY;
      metricTags[slot] := start;
      metricValues[slot] := value;
    }

    /** The level-change half of absorbing one sample. */
    method NoteTransition(raw: bool)
      requires Separate() && sampleIndex == |samples|
      requires transitionsTotal == Transitions(samples, |samples|)
      requires previousRaw == (if samples == [] then None else Some(samples[|samples| - 1]))
      requires HoldsTransitions(transitionTags[..], transitionPrefix[..], samples)
      modifies this`transitionsTotal, this`previousRaw, transitionTags, transitionPrefix
      ensures var s := samples + [raw];
              && transitionsTotal == Transitions(s, |s|) && previousRaw == Some(raw)
              && HoldsTransitions(transitionTags[..], transitionPrefix[..], s)
    {
      hide HoldsTransitions;
      assert transitionTags.Length == transitionPrefix.Length == HISTORY by {
        TransitionRingSize(transitionTags[..], transitionPrefix[..], samples);
      }
      TransitionsOfPrefix(samples, [raw], |samples|);
      StoredTransition(transitionTags[..], transitionPrefix[..], samples, raw);
      if previousRaw.Some? && raw != previousRaw.value {
        transitionsTotal := transitionsTotal + 1;
      }
      previousRaw := Some(raw);
      StoreTransitionPrefix(sampleIndex + 1);
    }

    /** The tagged lookup hits exactly within the ring's reach, and then gives
        the metric of the true twelve samples. */
    method MetricAt(start: int) returns (v: Option<real>)
      requires RingsValid()
      ensures start != -1 ==>
                v == if 0 <= start && start + WINDOW <= |samples| < start + WINDOW + HISTORY
                     then Some(table(samples[start..start + WINDOW])) else None
    {
      var slot := start % HISTORY;
      v := if metricTags[slot] != start then None else Some(metricValues[slot]);
    }

    method AcceptFrame(item: Occurrence)
      modifies this`occurrences, this`validFrames, this`duplicates, this`log
      ensures View() == Accept(old(View()), item)
    {
      var i := 0;
      while i < |occurrences| && !SameOccurrence(occurrences[i], item)
        invariant 0 <= i <= |occurrences|
        invariant forall k :: 0 <= k < i ==> !SameOccurrence(occurrences[k], item)
      {
        i := i + 1;
      }
      assert i == DuplicateIndex(occurrences, item);
      if i == |occurrences| {
        occurrences := occurrences + [item];
        log := log + [item];
        validFrames := validFrames + 1;
      } else {
        duplicates := duplicates + 1;
        if item.start < occurrences[i].start {
          occurrences := occurrences[i := item];
        }
      }
    }

    method AcceptFound(found: seq<Found>, h: Hypothesis)
      modifies this`occurrences, this`validFrames, this`duplicates, this`log
      ensures View() == AcceptAll(old(View()), found, h)
    {
      hide Accept;
      for i := 0 to |found|
        invariant AcceptAll(View(), found[i..], h) == AcceptAll(old(View()), found, h)
      {
        assert found[i..][0] == found[i] && found[i..][1..] == found[i + 1..];
        AcceptFrame(Occurrence(found[i].frame, found[i].start, found[i].end, h.baud, h.phase));
      }
    }

    /** The tone of the symbol that ends with the newest sample; the rings hold
        everything needed, so the outcome is the one over the full history. */
    method DecideTone(h: Hypothesis) returns (selector: Option<bool>)
      requires RingsValid() && WellTimed(h) && SymbolEnd(h) == |samples|
      ensures selector == Some(Decided(h, table, samples))
    {
      hide RingsValid, Transitions, Round, WellTimed, Boundary, Centered, SymbolEnd;
      SymbolGeometry(h);
      var boundary := Boundary(h);
      var symbolEnd := SymbolEnd(h);
      var norm := MetricAt(Centered(h));
      if norm.None? {
        return None;
      }
      var zc := TransitionCount(boundary, symbolEnd);
      selector := Some(if norm.value >= 0.12 || norm.value <= -0.12 then norm.value > 0.0 else zc >= 3);
    }

    /** Classify the symbol of hypothesis `order` that ends with the newest
        sample, from the rings alone, and move on to its next symbol. */
    method ClassifyHypothesis(order: nat)
      requires RingsValid() && order < |hypotheses| && WellTimed(hypotheses[order])
      requires SymbolEnd(hypotheses[order]) == |samples|
      modifies this`hypotheses, this`occurrences, this`validFrames, this`duplicates, this`log, this`decisions
      ensures View() == Process(old(View()), order, table, samples)
    {
      hide AcceptAll, Emit, WellTimed, RingsValid, Decided, SymbolEnd;
      var h := hypotheses[order];
      var symbolEnd := SymbolEnd(h);
      var selector := DecideTone(h);
      if selector.Some? {
        var bit := NrziBit(h.rx.previous, selector.value);
        var link, found := EmitBit(h.rx.link, bit, if symbolEnd >= 1 then symbolEnd - 1 else 0, h.period);
        h := h.(rx := Receiver(selector, link), nextEnd := h.nextEnd + h.period);
        hypotheses := hypotheses[order := h];
        decisions := decisions + 1;
        AcceptFound(found, h);
      }
    }

    /** Visit exactly the hypotheses whose symbol has just ended, in bank order. */
    method ClassifyDueSymbols()
      requires RingsValid() && ScheduleValid() && AllEndFrom(hypotheses, |samples|)
      modifies this`hypotheses, this`schedule, this`occurrences, this`validFrames, this`duplicates
      modifies this`log, this`decisions
      ensures ScheduleValid() && AllEndFrom(hypotheses, |samples| + 1)
      ensures View() == ScanFrom(old(View()), 0, table, samples)
    {
      hide RingsValid, ScanFrom, Process, AllWellTimed, SymbolEnd, IsSoonest, AllEndFrom, Scheduled;
      var currentEnd := CurrentEnd();
      ghost var next: nat := 0;
      while schedule != {}
        invariant ScheduleValid() && next <= |hypotheses|
        invariant AllEndFrom(hypotheses, |samples|) && NoneDueBefore(hypotheses, next, |samples|)
        invariant ScanFrom(View(), next, table, samples) == ScanFrom(old(View()), 0, table, samples)
        decreases |hypotheses| - next
      {
        var e, rest := HeapPop(schedule);
        HeadOfSchedule(schedule, hypotheses, e, |samples|);
        if e.0 > currentEnd {
          NothingDue(View(), next, table, samples);
          return;
        }
        Visit(View(), next, e.1, table, samples);
        Rescheduled(schedule, hypotheses, e, Advanced(hypotheses[e.1], table, samples).0);
        ClassifyHypothesis(e.1);
        schedule := rest + {(SymbolEnd(hypotheses[e.1]), e.1)};
        next := e.1 + 1;
      }
      EmptySchedule(schedule, hypotheses, |samples|);
      NothingDue(View(), next, table, samples);
    }

    /** The rings absorb one sample. */
    method Absorb(raw: bool)
      requires RingsValid()
      modifies this`samples, this`sampleIndex, this`metricSampleCount, this`metricRegister
      modifies this`transitionsTotal, this`previousRaw
      modifies metricTags, metricValues, transitionTags, transitionPrefix
      ensures RingsValid() && samples == old(samples) + [raw]
    {
      hide HoldsTransitions, HoldsMetrics, HoldsWindow;
      sampleIndex := sampleIndex + 1;
      NoteTransition(raw);
      StoreMetric(raw);
      samples := samples + [raw];
    }

    /** One sample: the state afterwards is the direct demodulation of the
        longer history. */
    method FeedSample(raw: bool)
      requires Valid()
      modifies this, metricTags, metricValues, transitionTags, transitionPrefix
      ensures Valid() && samples == old(samples) + [raw] && old(log) <= log
    {
      hide RingsValid, Direct, ScanFrom;
      Absorb(raw);
      assert AllEndFrom(hypotheses, |samples|);
      DirectStep(initial, table, old(samples), raw);
      ClassifyDueSymbols();
    }

    /** One chunk of packed slicer octets; returns the new occurrences ordered
        by opening sample. */
    method Feed(packed: Bytes) returns (out: seq<Occurrence>)
      requires Valid()
      modifies this, metricTags, metricValues, transitionTags, transitionPrefix
      ensures Valid() && samples == old(samples) + SlicerBits(packed)
      ensures old(log) <= log && out == ByStart(log[old(|log|)..])
    {
      hide Valid, MsbBit;
      var known := |log|;
      ghost var start := samples;
      assert start + SlicerBits(packed[0..]) == start + SlicerBits(packed) by { assert packed[0..] == packed; }
      for i := 0 to |packed|
        invariant Valid() && old(log) <= log
        invariant samples + SlicerBits(packed[i..]) == start + SlicerBits(packed)
      {
        assert packed[i..][0] == packed[i] && packed[i..][1..] == packed[i + 1..];
        ghost var before := samples;
        for k := 0 to 8
          invariant Valid() && old(log) <= log
          invariant samples == before + MsbBits(packed[i])[..k]
        {
          assert MsbBits(packed[i])[..k + 1] == MsbBits(packed[i])[..k] + [MsbBits(packed[i])[k]];
          FeedSample(MsbBit(packed[i], k));
        }
      }
      out := ByStart(log[known..]);
    }

    method CurrentEnd() returns (n: int)
      requires RingsValid()
      ensures n == |samples|
    {
      n := sampleIndex + 1;
    }
  }

  /** One octet of slicer output, most significant bit first. */
  function MsbBits(b: Byte): (bits: Bits)
    ensures |bits| == 8
  {
    seq(8, k requires 0 <= k < 8 => MsbBit(b, k))
  }

  function SlicerBits(packed: Bytes): Bits {
    if packed == [] then [] else MsbBits(packed[0]) + SlicerBits(packed[1..])
  }

  /** Sample `8 * i + k` is bit `7 - k` of octet `i`. */
  lemma {:induction false} SlicerOrder(packed: Bytes, i: nat, k: nat)
    requires i < |packed| && k < 8
    ensures |SlicerBits(packed)| == 8 * |packed|
    ensures SlicerBits(packed)[8 * i + k] <==> (packed[i] as int / Pow2(7 - k)) % 2 == 1
    decreases |packed|
  {
    hide MsbBit, Pow2;
    SlicerLength(packed);
    if i == 0 {
      assert SlicerBits(packed)[k] == MsbBits(packed[0])[k];
      MsbBitIsDigit(packed[0], k);
    } else {
      SlicerOrder(packed[1..], i - 1, k);
      assert SlicerBits(packed)[8 * i + k] == SlicerBits(packed[1..])[8 * (i - 1) + k];
    }
  }

  lemma {:induction false} SlicerLength(packed: Bytes)
    ensures |SlicerBits(packed)| == 8 * |packed|
  {
    hide MsbBit;
    if packed != [] { SlicerLength(packed[1..]); }
  }

  function Insert(x: Occurrence, s: seq<Occurrence>): seq<Occurrence> {
    if s == [] || x.start < s[0].start then [x] + s else [s[0]] + Insert(x, s[1..])
  }

  /** Stable sort by opening sample. */
  function ByStart(s: seq<Occurrence>): seq<Occurrence> {
    if s == [] then [] else Insert(s[|s| - 1], ByStart(s[..|s| - 1]))
  }

  predicate Ordered(s: seq<Occurrence>) { forall i, j :: 0 <= i < j < |s| ==> s[i].start <= s[j].start }

  lemma {:induction false} InsertKeepsAll(x: Occurrence, s: seq<Occurrence>)
    ensures multiset(Insert(x, s)) == multiset(s) + multiset{x}
  {
    if s != [] && x.start >= s[0].start {
      assert s == [s[0]] + s[1..];
      InsertKeepsAll(x, s[1..]);
    }
  }

  lemma {:induction false} InsertKeepsOrder(x: Occurrence, s: seq<Occurrence>)
    requires Ordered(s)
    ensures Ordered(Insert(x, s)) && Insert(x, s) != []
    ensures Insert(x, s)[0].start == if s != [] && s[0].start <= x.start then s[0].start else x.start
  {
    if s != [] && x.start >= s[0].start {
      InsertKeepsOrder(x, s[1..]);
    }
  }

  /** What `feed` returns is a reordering by opening sample: nothing is lost or
      invented. */
  lemma {:induction false} ByStartSorts(s: seq<Occurrence>)
    ensures Ordered(ByStart(s)) && multiset(ByStart(s)) == multiset(s)
  {
    if s != [] {
      ByStartSorts(s[..|s| - 1]);
      InsertKeepsAll(s[|s| - 1], ByStart(s[..|s| - 1]));
      InsertKeepsOrder(s[|s| - 1], ByStart(s[..|s| - 1]));
      assert s == s[..|s| - 1] + [s[|s| - 1]];
    }
  }

  /** The occurrences that open at one sample, in order. */
  function OpenedAt(s: seq<Occurrence>, start: int): seq<Occurrence> {
    if s == [] then [] else (if s[0].start == start then [s[0]] else []) + OpenedAt(s[1..], start)
  }

  lemma {:induction false} NoneOpenedAt(s: seq<Occurrence>, start: int)
    requires forall i :: 0 <= i < |s| ==> s[i].start > start
    ensures OpenedAt(s, start) == []
  {
    if s != [] {
      NoneOpenedAt(s[1..], start);
    }
  }

  lemma {:induction false} InsertIsStable(x: Occurrence, s: seq<Occurrence>, start: int)
    requires Ordered(s)
    ensures OpenedAt(Insert(x, s), start) == OpenedAt(s, start) + (if x.start == start then [x] else [])
  {
    if s == [] || x.start < s[0].start {
      assert ([x] + s)[1..] == s;
      if x.start == start {
        NoneOpenedAt(s, start);
      }
    } else {
      InsertIsStable(x, s[1..], start);
      assert ([s[0]] + Insert(x, s[1..]))[1..] == Insert(x, s[1..]);
    }
  }

  /** Reports that open at the same sample keep their order. */
  lemma {:induction false} ByStartIsStable(s: seq<Occurrence>, start: int)
    ensures OpenedAt(ByStart(s), start) == OpenedAt(s, start)
  {
    hide OpenedAt, Insert, Ordered;
    if s != [] {
      var n := |s| - 1;
      ByStartIsStable(s[..n], start);
      ByStartSorts(s[..n]);
      InsertIsStable(s[n], ByStart(s[..n]), start);
      OpenedAtSnoc(s[..n], s[n], start);
      assert s == s[..n] + [s[n]];
    }
  }

  lemma {:induction false} OpenedAtSnoc(s: seq<Occurrence>, x: Occurrence, start: int)
    ensures OpenedAt(s + [x], start) == OpenedAt(s, start) + (if x.start == start then [x] else [])
  {
    if s == [] {
      assert ([x] + [])[1..] == [];
    } else {
      assert (s + [x])[1..] == s[1..] + [x];
      OpenedAtSnoc(s[1..], x, start);
    }
  }

  lemma TransitionRingSize(tags: seq<int>, prefix: seq<int>, samples: Bits)
    requires HoldsTransitions(tags, prefix, samples)
    ensures |tags| == |prefix| == HISTORY
  {
  }

  lemma MetricRingSize(tags: seq<int>, values: seq<real>, table: MetricTable, samples: Bits)
    requires HoldsMetrics(tags, values, table, samples)
    ensures |tags| == |values| == HISTORY
  {
  }

  lemma ShortHistory(tags: seq<int>, values: seq<real>, table: MetricTable, samples: Bits, raw: bool)
    requires |samples| + 1 < WINDOW && HoldsMetrics(tags, values, table, samples)
    ensures HoldsMetrics(tags, values, table, samples + [raw])
  {
  }

  /** The twelve-bit register holds the newest samples. */
  ghost predicate HoldsWindow(register: Bits, samples: Bits) {
    && |register| == WINDOW
    && (|samples| >= WINDOW ==> register == samples[|samples| - WINDOW..])
    && (|samples| < WINDOW ==> register[WINDOW - |samples|..] == samples)
  }

  lemma RegisterShift(register: Bits, samples: Bits, raw: bool)
    requires HoldsWindow(register, samples)
    ensures |register| == WINDOW && HoldsWindow(register[1..] + [raw], samples + [raw])
    ensures |samples| + 1 >= WINDOW ==> register[1..] + [raw] == (samples + [raw])[|samples| + 1 - WINDOW..]
  {
  }

  lemma DirectStep(b: Bank, table: MetricTable, samples: Bits, raw: bool)
    requires AllWellTimed(b.hyps)
    ensures Direct(b, table, samples + [raw]) == ScanFrom(Direct(b, table, samples), 0, table, samples + [raw])
    ensures Direct(b, table, samples).log <= Direct(b, table, samples + [raw]).log
  {
    assert (samples + [raw])[..|samples|] == samples;
  }

  ghost predicate NoneDueBefore(hyps: seq<Hypothesis>, next: nat, n: int) {
    forall j :: 0 <= j < next && j < |hyps| ==> SymbolEnd(hyps[j]) > n
  }

  lemma EmptySchedule(schedule: set<(int, nat)>, hyps: seq<Hypothesis>, n: int)
    requires Scheduled(schedule, hyps)
    ensures schedule == {} ==> hyps == [] && AllEndFrom(hyps, n + 1)
  {
    if hyps != [] { assert (SymbolEnd(hyps[0]), 0) in schedule; }
  }

  lemma NothingDue(b: Bank, next: nat, table: MetricTable, samples: Bits)
    requires next <= |b.hyps| && AllWellTimed(b.hyps) && AllEndFrom(b.hyps, |samples| + 1)
    ensures ScanFrom(b, next, table, samples) == b
  {
    ScanSkips(b, next, |b.hyps|, table, samples);
  }

  /** Jumping straight to the first due hypothesis is what the scan does. */
  lemma Visit(b: Bank, next: nat, j: nat, table: MetricTable, samples: Bits)
    requires next <= |b.hyps| && j < |b.hyps| && AllWellTimed(b.hyps)
    requires AllEndFrom(b.hyps, |samples|) && NoneDueBefore(b.hyps, next, |samples|)
    requires SymbolEnd(b.hyps[j]) == |samples| && forall i :: 0 <= i < j ==> SymbolEnd(b.hyps[i]) != |samples|
    ensures next <= j && WellTimed(b.hyps[j])
    ensures var b' := Process(b, j, table, samples);
            && AllWellTimed(b'.hyps) && AllEndFrom(b'.hyps, |samples|) && NoneDueBefore(b'.hyps, j + 1, |samples|)
            && ScanFrom(b, next, table, samples) == ScanFrom(b', j + 1, table, samples)
  {
    hide ScanFrom, Process, SymbolEnd, WellTimed, Advanced;
    ScanSkips(b, next, j, table, samples);
    ScanProcesses(b, j, table, samples);
    ProcessAdvances(b, j, table, samples);
  }

  lemma ScanProcesses(b: Bank, j: nat, table: MetricTable, samples: Bits)
    requires j < |b.hyps| && AllWellTimed(b.hyps) && SymbolEnd(b.hyps[j]) == |samples|
    ensures AllWellTimed(Process(b, j, table, samples).hyps)
    ensures ScanFrom(b, j, table, samples) == ScanFrom(Process(b, j, table, samples), j + 1, table, samples)
  {
  }

  lemma ScanEnds(b: Bank, table: MetricTable, samples: Bits)
    requires AllWellTimed(b.hyps)
    ensures ScanFrom(b, |b.hyps|, table, samples) == b
  {
  }

  lemma ProcessAdvances(b: Bank, j: nat, table: MetricTable, samples: Bits)
    requires j < |b.hyps| && WellTimed(b.hyps[j]) && SymbolEnd(b.hyps[j]) <= |samples|
    ensures var hyps := Process(b, j, table, samples).hyps;
            && |hyps| == |b.hyps| && WellTimed(hyps[j])
            && SymbolEnd(hyps[j]) > SymbolEnd(b.hyps[j])
            && forall i :: 0 <= i < |hyps| && i != j ==> hyps[i] == b.hyps[i]
  {
    SymbolGeometry(b.hyps[j]);
  }

  // ---- What each hypothesis receives

  /** The hypothesis as constructed, when it awaits its `k`th symbol. */
  function Awaiting(h: Hypothesis, k: nat): Hypothesis {
    h.(nextEnd := h.phase + k as real * h.period)
  }

  /** The first `m` symbols of a hypothesis, each decided from the complete
      history at its exact nominal place. */
  function Symbols(h: Hypothesis, m: nat, table: MetricTable, samples: Bits): seq<Symbol>
    requires forall k :: 1 <= k <= m ==> WellTimed(Awaiting(h, k)) && SymbolEnd(Awaiting(h, k)) <= |samples|
  {
    seq(m, i requires 0 <= i < m => SymbolOf(Awaiting(h, i + 1), table, samples))
  }

  predicate Constructed(h: Hypothesis) {
    && 13.0 < h.period <= 120.0 && h.phase >= 0.0 && h.nextEnd == h.phase + h.period
    && h.rx == NewReceiver()
  }

  predicate AllConstructed(hyps: seq<Hypothesis>) { forall j :: 0 <= j < |hyps| ==> Constructed(hyps[j]) }

  /** A bank that has reported nothing yet. */
  predicate Unused(b: Bank) { b.occurrences == [] && b.log == [] && b.duplicates == 0 }

  lemma AwaitingWellTimed(h: Hypothesis, k: nat)
    requires Constructed(h) && k >= 1
    ensures WellTimed(Awaiting(h, k))
    ensures Awaiting(h, k).nextEnd + h.period == Awaiting(h, k + 1).nextEnd
  {
    assert (k + 1) as real * h.period == k as real * h.period + h.period;
    assert (k - 1) as real * h.period >= 0.0;
  }

  lemma DecidedFromPrefix(h: Hypothesis, table: MetricTable, samples: Bits, more: Bits)
    requires WellTimed(h) && SymbolEnd(h) <= |samples|
    ensures SymbolOf(h, table, samples + more) == SymbolOf(h, table, samples)
  {
    hide SymbolEnd, Centered, Boundary;
    SymbolGeometry(h);
    TransitionsOfPrefix(samples, more, SymbolEnd(h));
    TransitionsOfPrefix(samples, more, Boundary(h) + 1);
    assert (samples + more)[Centered(h)..Centered(h) + WINDOW] == samples[Centered(h)..Centered(h) + WINDOW];
  }

  lemma SymbolsGrow(h: Hypothesis, m: nat, table: MetricTable, samples: Bits, raw: bool)
    requires forall k :: 1 <= k <= m ==> WellTimed(Awaiting(h, k)) && SymbolEnd(Awaiting(h, k)) <= |samples|
    ensures Symbols(h, m, table, samples + [raw]) == Symbols(h, m, table, samples)
  {
    hide WellTimed, SymbolEnd, SymbolOf;
    forall i | 0 <= i < m
      ensures Symbols(h, m, table, samples + [raw])[i] == Symbols(h, m, table, samples)[i]
    {
      DecidedFromPrefix(Awaiting(h, i + 1), table, samples, [raw]);
    }
  }

  /** The state in which a hypothesis is after its first `m` symbols. */
  ghost predicate HasReceived(now: Hypothesis, h: Hypothesis, m: nat, table: MetricTable, samples: Bits) {
    && (forall k :: 1 <= k <= m ==> WellTimed(Awaiting(h, k)) && SymbolEnd(Awaiting(h, k)) <= |samples|)
    && SymbolEnd(Awaiting(h, m + 1)) > |samples|
    && now == Awaiting(h, m + 1).(rx := ReceiveAll(h.rx, Symbols(h, m, table, samples), h.period).0)
  }

  lemma ReceivesOneMore(now: Hypothesis, h: Hypothesis, m: nat, table: MetricTable, samples: Bits, raw: bool)
    requires Constructed(h) && HasReceived(now, h, m, table, samples)
    ensures var s := samples + [raw];
            && WellTimed(now)
            && (SymbolEnd(now) == |s| ==> HasReceived(Advanced(now, table, s).0, h, m + 1, table, s))
            && (SymbolEnd(now) != |s| ==> HasReceived(now, h, m, table, s))
  {
    hide WellTimed, SymbolEnd, SymbolOf, Awaiting, Constructed, ReceiveAll, Receive, Symbols;
    var s := samples + [raw];
    var next := Awaiting(h, m + 1);
    AwaitingWellTimed(h, m + 1);
    SymbolsGrow(h, m, table, samples, raw);
    SameTiming(now, next, table, s);
    AwaitingBasics(h, m + 1);
    if SymbolEnd(now) == |s| {
      AwaitedEnds(h, m + 1);
      var old', y := Symbols(h, m, table, s), SymbolOf(next, table, s);
      assert Symbols(h, m + 1, table, s) == old' + [y] by { SymbolsSnoc(h, m, table, s); }
      ReceiveAllConcat(h.rx, old', [y], h.period);
      ReceiveOne(ReceiveAll(h.rx, old', h.period).0, y, h.period);
    }
  }

  lemma AwaitingBasics(h: Hypothesis, k: nat)
    ensures var a := Awaiting(h, k); a.period == h.period && a.phase == h.phase && a.baud == h.baud && a.rx == h.rx
    ensures forall x: real, r: Receiver :: Awaiting(h, k).(nextEnd := x, rx := r) == h.(nextEnd := x, rx := r)
    ensures forall r: Receiver :: Awaiting(h, k).(rx := r) == h.(nextEnd := Awaiting(h, k).nextEnd, rx := r)
    ensures Awaiting(h, k + 1) == h.(nextEnd := Awaiting(h, k + 1).nextEnd)
  {
  }

  /** A symbol's timing and decision do not depend on the receiver state. */
  lemma SameTiming(a: Hypothesis, b: Hypothesis, table: MetricTable, samples: Bits)
    requires a == b.(rx := a.rx) && WellTimed(b)
    ensures WellTimed(a) && SymbolEnd(a) == SymbolEnd(b)
    ensures SymbolEnd(a) <= |samples| ==> SymbolOf(a, table, samples) == SymbolOf(b, table, samples)
  {
    hide Round, Transitions;
    assert Boundary(a) == Boundary(b) && Centered(a) == Centered(b);
  }

  lemma AwaitedEnds(h: Hypothesis, k: nat)
    requires Constructed(h) && k >= 1
    ensures SymbolEnd(Awaiting(h, k + 1)) > SymbolEnd(Awaiting(h, k))
  {
    AwaitingWellTimed(h, k);
    SymbolGeometry(Awaiting(h, k));
  }

  lemma SymbolsSnoc(h: Hypothesis, m: nat, table: MetricTable, samples: Bits)
    requires forall k :: 1 <= k <= m + 1 ==> WellTimed(Awaiting(h, k)) && SymbolEnd(Awaiting(h, k)) <= |samples|
    ensures Symbols(h, m + 1, table, samples)
         == Symbols(h, m, table, samples) + [SymbolOf(Awaiting(h, m + 1), table, samples)]
  {
    hide WellTimed, SymbolEnd, SymbolOf;
  }

  lemma ReceiveOne(r: Receiver, y: Symbol, period: real)
    ensures ReceiveAll(r, [y], period).0 == Receive(r, y, period).0
  {
    hide Receive;
    assert [y][1..] == [];
  }

  /** Each hypothesis has received exactly the symbols whose nominal end lies
      within the history: none skipped, none repeated, each decided as from the
      full history. */
  lemma {:induction false} HypothesisIsDirect(b: Bank, j: nat, table: MetricTable, samples: Bits) returns (m: nat)
    requires AllWellTimed(b.hyps) && j < |b.hyps| && Constructed(b.hyps[j])
    ensures HasReceived(Direct(b, table, samples).hyps[j], b.hyps[j], m, table, samples)
    decreases |samples|
  {
    hide ScanFrom, WellTimed, Constructed, Advanced, SymbolEnd, HasReceived;
    if samples == [] {
      m := 0;
      ReceivedNothing(b.hyps[j], table);
    } else {
      var n := |samples| - 1;
      var before, raw := samples[..n], samples[n];
      assert samples == before + [raw];
      m := HypothesisIsDirect(b, j, table, before);
      var now := Direct(b, table, before).hyps[j];
      ReceivesOneMore(now, b.hyps[j], m, table, before, raw);
      m := if SymbolEnd(now) == |samples| then m + 1 else m;
    }
  }

  lemma ReceivedNothing(h: Hypothesis, table: MetricTable)
    requires Constructed(h)
    ensures HasReceived(h, h, 0, table, [])
  {
    AwaitingWellTimed(h, 1);
    SymbolGeometry(Awaiting(h, 1));
    assert Awaiting(h, 1) == h;
  }

  // ---- Repeats on one timing hypothesis

  /** The sample recorded as the opening of a frame whose opening flag ended
      with the `k`th symbol. */
  function OpeningAt(h: Hypothesis, k: nat): int {
    var end := SymbolEnd(Awaiting(h, k));
    Round((if end >= 1 then end - 1 else 0) as real + h.period)
  }

  /** Frames opened at least 144 symbols apart are never the same occurrence. */
  lemma OpeningsAreFarApart(h: Hypothesis, i: nat, k: nat)
    requires Constructed(h) && 1 <= i && i + 144 <= k
    ensures Distance(OpeningAt(h, i), OpeningAt(h, k)) > TOLERANCE
  {
    hide Round;
    var x, y := Awaiting(h, i).nextEnd, Awaiting(h, k).nextEnd;
    ProductGap(i, k, h.period);
    var early, late := Round(x), Round(y);
    assert early >= 1 && late >= 1;
    var from', to' := Round((early - 1) as real + h.period), Round((late - 1) as real + h.period);
    assert to' - from' > TOLERANCE;
  }

  lemma ProductGap(i: nat, k: nat, p: real)
    requires 1 <= i && i + 144 <= k && p > 13.0
    ensures k as real * p - i as real * p >= 1872.0 && i as real * p >= 13.0
  {
    assert (i - 1) as real * p >= 0.0;
    assert (k - i - 144) as real * p >= 0.0;
    assert k as real * p == i as real * p + 144.0 * p + (k - i - 144) as real * p;
  }

  /** An acceptable candidate, with its closing flag, has at least 144 bits. */
  lemma CandidateIsLong(bits: Bits)
    ensures Candidate(bits).Some? ==> |bits| >= 144
  {
    hide Acceptable, Unstuff, Stuff;
    if |bits| > 8 {
      var stuffed := bits[..|bits| - 8];
      var r := Unstuff(stuffed);
      if r.Ok? {
        StuffingIsABijection(stuffed, r.value);
        assert |r.value| <= |Stuff(r.value)| by { StuffedNoShorter(r.value); }
        if Candidate(bits).Some? {
          AcceptableIsLong(Candidate(bits).value);
        }
      }
    }
  }

  lemma StuffedNoShorter(bits: Bits)
    ensures |bits| <= |Stuff(bits)|
  {
    StuffedLength(0, bits);
  }

  lemma AcceptableIsLong(frame: Bytes)
    requires Acceptable(frame)
    ensures |frame| >= 17
  {
  }

  /** After `m` symbols: where each occurrence opened, all at least 144 symbols
      before the flag that opened the present candidate. */
  ghost predicate Spaced(h: Hypothesis, occurrences: seq<Occurrence>, open: Option<Open>, m: nat, starts: seq<nat>,
                         o: nat) {
    && |starts| == |occurrences| && o <= m
    && (forall i :: 0 <= i < |starts| ==>
          1 <= starts[i] && starts[i] + 144 <= o && occurrences[i].start == OpeningAt(h, starts[i]))
    && (open.Some? ==> 1 <= o && open.value.start == OpeningAt(h, o) && |open.value.bits| == m - o)
  }

  lemma AcceptSpaced(b: Bank, h: Hypothesis, item: Occurrence, starts: seq<nat>, o: nat)
    requires Constructed(h) && 1 <= o && item.start == OpeningAt(h, o) && |starts| == |b.occurrences|
    requires forall i :: 0 <= i < |starts| ==>
      1 <= starts[i] && starts[i] + 144 <= o && b.occurrences[i].start == OpeningAt(h, starts[i])
    ensures Accept(b, item) == b.(occurrences := b.occurrences + [item], log := b.log + [item], valid := b.valid + 1)
  {
    hide OpeningAt, Constructed;
    forall i | 0 <= i < |b.occurrences| ensures !SameOccurrence(b.occurrences[i], item) {
      OpeningsAreFarApart(h, starts[i], o);
    }
  }

  /** The log has grown by exactly the frames found. */
  ghost predicate Reported(log: seq<Occurrence>, log': seq<Occurrence>, found: seq<Found>) {
    log <= log' && |log'| == |log| + |found| && forall i :: 0 <= i < |found| ==> log'[|log| + i].frame == found[i].frame
  }

  /** One more symbol: a frame it completes is always a new occurrence. */
  lemma SpacedStep(b: Bank, h: Hypothesis, m: nat, starts: seq<nat>, o: nat, table: MetricTable, samples: Bits)
      returns (starts': seq<nat>, o': nat)
    requires Constructed(h) && |b.hyps| == 1 && WellTimed(b.hyps[0]) && SymbolEnd(b.hyps[0]) <= |samples|
    requires b.hyps[0] == Awaiting(h, m + 1).(rx := b.hyps[0].rx)
    requires Spaced(h, b.occurrences, b.hyps[0].rx.link.open, m, starts, o)
    ensures var b' := Process(b, 0, table, samples);
            && b'.duplicates == b.duplicates && Spaced(h, b'.occurrences, b'.hyps[0].rx.link.open, m + 1, starts', o')
            && Reported(b.log, b'.log, Advanced(b.hyps[0], table, samples).1)
  {
    hide OpeningAt, Constructed, Accept, WellTimed, Emit, Spaced, SymbolEnd, SymbolOf;
    var now := b.hyps[0];
    var y := SymbolOf(now, table, samples);
    var k := now.rx.link;
    var t := Timed(NrziBit(now.rx.previous, y.selector), y.at);
    var found := Emit(k, t, h.period).1;
    OpeningOf(now, h, m + 1, table, samples);
    EmitOutcome(k, t, h.period);
    var h1 := Advanced(now, table, samples).0;
    var b1 := b.(hyps := b.hyps[0 := h1], decisions := b.decisions + 1);
    starts', o' := SpacedEmit(h, b.occurrences, k, t, m, starts, o);
    assert (h1, found) == Advanced(now, table, samples) by { AwaitingBasics(h, m + 1); }
    assert Process(b, 0, table, samples) == AcceptAll(b1, found, h1);
    if found != [] {
      var item := Occurrence(found[0].frame, found[0].start, found[0].end, h1.baud, h1.phase);
      assert AcceptAll(b1, found, h1) == Accept(b1, item) by { assert found[1..] == []; }
      SpacedFacts(h, b.occurrences, k.open, m, starts, o);
      AcceptSpaced(b1, h, item, starts, o);
      SpacedAdd(h, b.occurrences, item, Emit(k, t, h.period).0.open, m + 1, starts, o);
    }
  }

  /** What one bit does to the candidate, and what a completed frame implies. */
  lemma EmitOutcome(k: Link, t: Timed, period: real)
    ensures var (k', found) := Emit(k, t, period);
            && (k'.open == Some(Open([], Round(t.at as real + period)))
                || (found == [] && k'.open == Buffered(k.open, [t.bit])))
            && (found != [] ==> |found| == 1 && k.open.Some? && |k.open.value.bits| + 1 >= 144
                                && found[0].start == k.open.value.start
                                && k'.open == Some(Open([], Round(t.at as real + period))))
  {
    hide Candidate, Round, Shifted;
    var open := Buffered(k.open, [t.bit]);
    if open.Some? { CandidateIsLong(open.value.bits); }
  }

  lemma SpacedFacts(h: Hypothesis, occurrences: seq<Occurrence>, open: Option<Open>, m: nat, starts: seq<nat>, o: nat)
    requires Spaced(h, occurrences, open, m, starts, o)
    ensures |starts| == |occurrences| && o <= m
    ensures forall i :: 0 <= i < |starts| ==>
      1 <= starts[i] && starts[i] + 144 <= o && occurrences[i].start == OpeningAt(h, starts[i])
    ensures open.Some? ==> 1 <= o && open.value.start == OpeningAt(h, o)
  {
  }

  lemma SpacedAdd(h: Hypothesis, occurrences: seq<Occurrence>, item: Occurrence, open: Option<Open>, m: nat,
                  starts: seq<nat>, o: nat)
    requires |starts| == |occurrences| && 1 <= o && o + 144 <= m && item.start == OpeningAt(h, o)
    requires forall i :: 0 <= i < |starts| ==>
      1 <= starts[i] && starts[i] + 144 <= o && occurrences[i].start == OpeningAt(h, starts[i])
    requires open == Some(Open([], OpeningAt(h, m)))
    ensures Spaced(h, occurrences + [item], open, m, starts + [o], m)
  {
    hide OpeningAt;
  }

  lemma SpacedEmit(h: Hypothesis, occurrences: seq<Occurrence>, k: Link, t: Timed, m: nat, starts: seq<nat>, o: nat)
      returns (starts': seq<nat>, o': nat)
    requires Spaced(h, occurrences, k.open, m, starts, o)
    requires Round(t.at as real + h.period) == OpeningAt(h, m + 1)
    ensures var (k', found) := Emit(k, t, h.period);
            && (found == [] ==> Spaced(h, occurrences, k'.open, m + 1, starts', o'))
            && (found != [] ==> o + 144 <= m + 1 && starts' == starts + [o] && o' == m + 1)
  {
    hide OpeningAt, Emit, Round;
    EmitOutcome(k, t, h.period);
    var (k', found) := Emit(k, t, h.period);
    if found != [] {
      starts', o' := starts + [o], m + 1;
    } else if k'.open == Some(Open([], Round(t.at as real + h.period))) {
      starts', o' := starts, m + 1;
    } else {
      starts', o' := starts, o;
    }
  }

  lemma OpeningOf(now: Hypothesis, h: Hypothesis, k: nat, table: MetricTable, samples: Bits)
    requires now == Awaiting(h, k).(rx := now.rx) && WellTimed(now) && SymbolEnd(now) <= |samples|
    ensures Round(SymbolOf(now, table, samples).at as real + h.period) == OpeningAt(h, k)
  {
  }

  /** A decoder with a single timing hypothesis suppresses nothing: no sample
      stream makes it discard a frame as a duplicate. */
  lemma {:induction false} SingleHypothesisKeepsRepeats(b: Bank, table: MetricTable, samples: Bits)
      returns (m: nat, starts: seq<nat>, o: nat)
    requires |b.hyps| == 1 && Constructed(b.hyps[0]) && WellTimed(b.hyps[0]) && b.occurrences == []
    ensures var b' := Direct(b, table, samples);
            && b'.duplicates == b.duplicates
            && b'.hyps[0] == Awaiting(b.hyps[0], m + 1).(rx := b'.hyps[0].rx)
            && Spaced(b.hyps[0], b'.occurrences, b'.hyps[0].rx.link.open, m, starts, o)
    decreases |samples|
  {
    hide ScanFrom, WellTimed, Constructed, SymbolEnd, Spaced, Advanced, Awaiting;
    var h := b.hyps[0];
    if samples == [] {
      m, starts, o := 0, [], 0;
      SpacedInitially(h);
    } else {
      var n := |samples| - 1;
      m, starts, o := SingleHypothesisKeepsRepeats(b, table, samples[..n]);
      var before := Direct(b, table, samples[..n]);
      AwaitingBasics(h, m + 1);
      AwaitingWellTimed(h, m + 1);
      SingleScan(before, table, samples);
      if SymbolEnd(before.hyps[0]) == |samples| {
        starts, o := SpacedStep(before, h, m, starts, o, table, samples);
        SingleAdvance(before, h, m, table, samples);
        m := m + 1;
      }
    }
  }

  lemma SpacedInitially(h: Hypothesis)
    requires Constructed(h)
    ensures Spaced(h, [], h.rx.link.open, 0, [], 0) && h == Awaiting(h, 1)
  {
  }

  lemma SingleScan(b: Bank, table: MetricTable, samples: Bits)
    requires |b.hyps| == 1 && AllWellTimed(b.hyps)
    ensures ScanFrom(b, 0, table, samples)
         == if SymbolEnd(b.hyps[0]) == |samples| then Process(b, 0, table, samples) else b
  {
    hide Process, WellTimed, SymbolEnd;
    if SymbolEnd(b.hyps[0]) == |samples| {
      ScanProcesses(b, 0, table, samples);
      ScanEnds(Process(b, 0, table, samples), table, samples);
    } else {
      ScanEnds(b, table, samples);
    }
  }

  lemma SingleAdvance(b: Bank, h: Hypothesis, m: nat, table: MetricTable, samples: Bits)
    requires |b.hyps| == 1 && Constructed(h) && WellTimed(b.hyps[0]) && SymbolEnd(b.hyps[0]) <= |samples|
    requires b.hyps[0] == Awaiting(h, m + 1).(rx := b.hyps[0].rx)
    ensures var h' := Process(b, 0, table, samples).hyps[0]; h' == Awaiting(h, m + 2).(rx := h'.rx)
  {
    hide SymbolEnd, WellTimed, Constructed, Receive, SymbolOf;
    AwaitingWellTimed(h, m + 1);
  }
}
