/** Reception from samples: what a hypothesis must hear in the raw slicer bits
    for the decoder to report a burst. */
module SampleReception {
  import opened Primitives
  import opened Hdlc
  import opened Deframer
  import opened Demodulator
  import opened Reception

  /** From symbol `from` on, each symbol of the hypothesis sounds like the burst's
      next tone; and so does the one before a burst with a single opening flag. */
  ghost predicate Played(h: Hypothesis, table: MetricTable, samples: Bits, from: nat, burst: Burst)
    requires Sendable(burst)
  {
    && (forall i :: 0 <= i < |Sent(burst)| ==> Sounds(Awaiting(h, from + i + 1), table, samples, Sent(burst)[i]))
    && (burst.preFlags >= 2 || (from > 0 && Sounds(Awaiting(h, from), table, samples, burst.tone)))
  }

  /** The burst's last symbol has come to its end within the samples. */
  predicate Over(h: Hypothesis, samples: Bits, to: nat) {
    h.phase + to as real * h.period + 0.5 <= |samples| as real
  }

  /** Symbols that end within the samples have been received. */
  lemma OverIsReceived(now: Hypothesis, h: Hypothesis, m: nat, table: MetricTable, samples: Bits, to: nat)
    requires Constructed(h) && HasReceived(now, h, m, table, samples) && Over(h, samples, to)
    ensures to <= m
  {
    hide Symbols, ReceiveAll, WellTimed, SymbolEnd, Awaiting, Over;
    if to > m {
      OverBefore(h, samples, m + 1, to);
      EndsInTime(h, m + 1, samples);
    }
  }

  lemma OverBefore(h: Hypothesis, samples: Bits, k: nat, to: nat)
    requires h.period > 0.0 && k <= to && Over(h, samples, to)
    ensures Over(h, samples, k)
  {
    Later(h, k, to);
  }

  lemma EndsInTime(h: Hypothesis, k: nat, samples: Bits)
    requires Over(h, samples, k)
    ensures SymbolEnd(Awaiting(h, k)) <= |samples|
  {
    hide Round;
  }

  lemma Later(h: Hypothesis, i: nat, k: nat)
    requires h.period > 0.0 && i <= k
    ensures h.phase + i as real * h.period <= h.phase + k as real * h.period
  {
    assert (k - i) as real * h.period >= 0.0;
    assert k as real * h.period == i as real * h.period + (k - i) as real * h.period;
  }

  /** What was played is what was heard. */
  lemma PlayedIsHeard(now: Hypothesis, h: Hypothesis, m: nat, table: MetricTable, samples: Bits, from: nat,
                      burst: Burst)
    requires Constructed(h) && HasReceived(now, h, m, table, samples) && Sendable(burst)
    requires Played(h, table, samples, from, burst) && Over(h, samples, from + |Sent(burst)|)
    ensures Heard(Symbols(h, m, table, samples), from, from + |Sent(burst)|, burst)
  {
    hide WellTimed, SymbolEnd, Sounds, Awaiting, ReceiveAll, Over, Sendable, Sent, Constructed;
    var n, ys := |Sent(burst)|, Symbols(h, m, table, samples);
    OverIsReceived(now, h, m, table, samples, from + n);
    forall i | 0 <= i < n ensures ys[from..from + n][i].selector == Sent(burst)[i] {
      SoundIsDecided(Awaiting(h, from + i + 1), table, samples, Sent(burst)[i]);
      assert ys[from..from + n][i] == ys[from + i];
    }
    assert SelectorsOf(ys[from..from + n]) == Sent(burst);
    if burst.preFlags < 2 {
      SoundIsDecided(Awaiting(h, from), table, samples, burst.tone);
    }
  }

  /** `zone` holds every sample at which data can open during the symbols. */
  ghost predicate Surrounds(zone: iset<int>, h: Hypothesis, from: nat, to: nat) {
    forall s: int :: OpenableAt(s, h, from, to) ==> s in zone
  }

  predicate OpenableAt(s: int, h: Hypothesis, from: nat, to: nat) {
    h.phase + (from + 2) as real * h.period - 2.0 <= s as real <= h.phase + (to + 1) as real * h.period
  }

  lemma SurroundsCovers(zone: iset<int>, h: Hypothesis, m: nat, table: MetricTable, samples: Bits, from: nat, to: nat)
    requires Constructed(h) && Surrounds(zone, h, from, to)
    requires forall k :: 1 <= k <= m ==> WellTimed(Awaiting(h, k)) && SymbolEnd(Awaiting(h, k)) <= |samples|
    ensures Covers(zone, Symbols(h, m, table, samples), from, to, h.period)
  {
    hide WellTimed, SymbolEnd, SymbolOf, Awaiting, Constructed, OpeningAfter, Surrounds;
    var ys := Symbols(h, m, table, samples);
    forall i | from <= i < to && i < |ys| ensures OpeningAfter(ys[i], h.period) in zone {
      OpensInside(zone, h, i, table, samples, from, to);
    }
  }

  lemma OpensInside(zone: iset<int>, h: Hypothesis, i: nat, table: MetricTable, samples: Bits, from: nat, to: nat)
    requires Constructed(h) && WellTimed(Awaiting(h, i + 1)) && SymbolEnd(Awaiting(h, i + 1)) <= |samples|
    requires Surrounds(zone, h, from, to) && from <= i < to
    ensures OpeningAfter(SymbolOf(Awaiting(h, i + 1), table, samples), h.period) in zone
  {
    hide WellTimed, SymbolEnd, SymbolOf, Awaiting, Constructed, OpeningAfter;
    OpensInPlace(h, i, table, samples);
    Later(h, from + 2, i + 2);
    Later(h, i + 2, to + 1);
    assert OpenableAt(OpeningAfter(SymbolOf(Awaiting(h, i + 1), table, samples), h.period), h, from, to);
  }

  /** Data opened by a flag ending with the `i`th symbol opens where the next
      symbol ends, to within two samples. */
  lemma OpensInPlace(h: Hypothesis, i: nat, table: MetricTable, samples: Bits)
    requires Constructed(h) && WellTimed(Awaiting(h, i + 1)) && SymbolEnd(Awaiting(h, i + 1)) <= |samples|
    ensures h.period > 0.0
    ensures var s := OpeningAfter(SymbolOf(Awaiting(h, i + 1), table, samples), h.period);
            h.phase + (i + 2) as real * h.period - 2.0 <= s as real <= h.phase + (i + 2) as real * h.period
  {
    hide SymbolOf, SymbolEnd, WellTimed, Middle, LevelChanges, Round;
    var b, c, e := ToneLaw(Awaiting(h, i + 1), table, samples);
    assert (i + 2) as real * h.period == (i + 1) as real * h.period + h.period;
  }

  /** From samples to reports, for any bank: a deliverable burst that one
      hypothesis hears in the raw samples has a report in every zone around it
      that is clear of the frame's other receptions. */
  lemma PlayedBurstIsReported(b: Bank, j: nat, table: MetricTable, samples: Bits, burst: Burst, from: nat,
                              zone: iset<int>)
    requires AllWellTimed(b.hyps) && Unused(b) && j < |b.hyps| && Constructed(b.hyps[j])
    requires Sendable(burst) && Delivered(burst.frame) == [burst.frame]
    requires Played(b.hyps[j], table, samples, from, burst) && Over(b.hyps[j], samples, from + |Sent(burst)|)
    requires Surrounds(zone, b.hyps[j], from, from + |Sent(burst)|)
    requires Apart(BankOpenings(b.hyps, table, samples, burst.frame), zone)
    ensures CountIn(Direct(b, table, samples).log, burst.frame, zone) >= 1
  {
    hide Direct, WellTimed, SymbolEnd, Awaiting, Symbols, Heard, Sendable, Sent, Delivered, Apart, CountIn, Covers,
         BankOpenings, Played, Over, Surrounds, Constructed, ReceiveAll;
    var h, to := b.hyps[j], from + |Sent(burst)|;
    var m := HeardBurstIsReported(b, j, table, samples, burst);
    PlayedIsHeard(Direct(b, table, samples).hyps[j], h, m, table, samples, from, burst);
    SurroundsCovers(zone, h, m, table, samples, from, to);
  }

  /** The same of the decoder object, whatever its bank and however its samples
      came in. */
  lemma DecoderHearsSamples(d: StreamingBell202Decoder, j: nat, burst: Burst, from: nat, zone: iset<int>)
    requires d.Valid() && j < |d.initial.hyps| && Sendable(burst) && Delivered(burst.frame) == [burst.frame]
    requires Played(d.initial.hyps[j], d.table, d.samples, from, burst)
    requires Over(d.initial.hyps[j], d.samples, from + |Sent(burst)|)
    requires Surrounds(zone, d.initial.hyps[j], from, from + |Sent(burst)|)
    requires Apart(BankOpenings(d.initial.hyps, d.table, d.samples, burst.frame), zone)
    ensures CountIn(d.log, burst.frame, zone) >= 1
  {
    hide Direct, Sendable, Sent, Delivered, Constructed, WellTimed, Surrounds, Apart, CountIn, Played, Over,
         BankOpenings, StreamingBell202Decoder.RingsValid, StreamingBell202Decoder.ScheduleValid, AllEndFrom;
    PlayedBurstIsReported(d.initial, j, d.table, d.samples, burst, from, zone);
  }

  /** In particular its frame is among the reports. */
  lemma PlayedFrameIsReported(d: StreamingBell202Decoder, j: nat, burst: Burst, from: nat)
    requires d.Valid() && j < |d.initial.hyps| && Sendable(burst) && Delivered(burst.frame) == [burst.frame]
    requires Played(d.initial.hyps[j], d.table, d.samples, from, burst)
    requires Over(d.initial.hyps[j], d.samples, from + |Sent(burst)|)
    ensures exists o <- d.log :: o.frame == burst.frame
  {
    hide Sendable, Sent, Delivered, CountIn, Played, Over, BankOpenings, OpenableAt, StreamingBell202Decoder.Valid;
    var everywhere := iset s: int | UpTo(s, s);
    DecoderHearsSamples(d, j, burst, from, everywhere);
    CountPositive(d.log, burst.frame, everywhere);
  }
}
