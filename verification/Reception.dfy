/** What the streaming decoder reports, for any bank of timing hypotheses.
    Everything that some hypothesis finds is reported or counted as a repeat,
    and what the hypotheses find of one frame is reported reception by
    reception: openings that lie more than the tolerance apart from all others
    are reported, once if they lie within the tolerance of one another. */
module Reception {
  import opened Primitives
  import opened Hdlc
  import opened Deframer
  import opened Demodulator

  // ---- One hypothesis on its own

  /** A hypothesis demodulating the history alone, and the frames it finds. */
  function Alone(h: Hypothesis, table: MetricTable, samples: Bits): (r: (Hypothesis, seq<Found>))
    requires WellTimed(h)
    ensures WellTimed(r.0)
    decreases |samples|
  {
    if samples == [] then (h, []) else
      var (now, found) := Alone(h, table, samples[..|samples| - 1]);
      if SymbolEnd(now) != |samples| then (now, found) else
        var (next, more) := Advanced(now, table, samples);
        (next, found + more)
  }

  /** What the whole bank finds, hypothesis by hypothesis. */
  function FoundByAll(hyps: seq<Hypothesis>, table: MetricTable, samples: Bits): seq<Found>
    requires AllWellTimed(hyps)
  {
    if hyps == [] then [] else Alone(hyps[0], table, samples).1 + FoundByAll(hyps[1..], table, samples)
  }

  /** What the hypotheses that are due at the last sample find there. */
  function Due(hyps: seq<Hypothesis>, table: MetricTable, samples: Bits): seq<Found>
    requires AllWellTimed(hyps)
  {
    if hyps == [] then [] else
      (if SymbolEnd(hyps[0]) == |samples| then Advanced(hyps[0], table, samples).1 else [])
      + Due(hyps[1..], table, samples)
  }

  function AllAlone(hyps: seq<Hypothesis>, table: MetricTable, samples: Bits): (now: seq<Hypothesis>)
    requires AllWellTimed(hyps)
    ensures |now| == |hyps| && AllWellTimed(now)
    ensures forall j :: 0 <= j < |hyps| ==> now[j] == Alone(hyps[j], table, samples).0
  {
    seq(|hyps|, j requires 0 <= j < |hyps| => Alone(hyps[j], table, samples).0)
  }

  // ---- Receptions of one frame

  /** The samples at which `f` was found to open. */
  function Openings(found: seq<Found>, f: Bytes): set<int> { set x <- found | x.frame == f :: x.start }

  /** Nothing in `zone` opens within the tolerance of anything outside it. */
  ghost predicate Apart(openings: set<int>, zone: iset<int>) {
    forall a <- openings, c <- openings :: a in zone && c !in zone ==> Distance(a, c) > TOLERANCE
  }

  /** Everything in `zone` opens within the tolerance of everything else in it. */
  ghost predicate Together(openings: set<int>, zone: iset<int>) {
    forall a <- openings, c <- openings :: a in zone && c in zone ==> Distance(a, c) <= TOLERANCE
  }

  ghost predicate Meets(openings: set<int>, zone: iset<int>) { exists a <- openings :: a in zone }

  ghost predicate Lies(o: Occurrence, f: Bytes, zone: iset<int>) { o.frame == f && o.start in zone }

  /** How many of `log` are occurrences of `f` that open in `zone`. */
  ghost function CountIn(log: seq<Occurrence>, f: Bytes, zone: iset<int>): nat {
    if log == [] then 0 else
      CountIn(log[..|log| - 1], f, zone) + if Lies(log[|log| - 1], f, zone) then 1 else 0
  }

  lemma CountSnoc(log: seq<Occurrence>, o: Occurrence, f: Bytes, zone: iset<int>)
    ensures CountIn(log + [o], f, zone) == CountIn(log, f, zone) + if Lies(o, f, zone) then 1 else 0
  {
    assert (log + [o])[..|log|] == log;
  }

  lemma {:induction false} CountUpdate(log: seq<Occurrence>, i: nat, o: Occurrence, f: Bytes, zone: iset<int>)
    requires i < |log| && Lies(o, f, zone) == Lies(log[i], f, zone)
    ensures CountIn(log[i := o], f, zone) == CountIn(log, f, zone)
  {
    hide Lies;
    var n := |log| - 1;
    if i < n {
      assert log[i := o][..n] == log[..n][i := o];
      CountUpdate(log[..n], i, o, f, zone);
    } else {
      assert log[i := o][..n] == log[..n];
    }
  }

  lemma {:induction false} CountPositive(log: seq<Occurrence>, f: Bytes, zone: iset<int>)
    ensures CountIn(log, f, zone) >= 1 <==> exists k :: 0 <= k < |log| && Lies(log[k], f, zone)
  {
    hide Lies;
    var n := |log| - 1;
    if log != [] {
      CountPositive(log[..n], f, zone);
      assert forall k :: 0 <= k < n ==> log[..n][k] == log[k];
    }
  }

  lemma {:induction false} CountUnique(log: seq<Occurrence>, f: Bytes, zone: iset<int>, i: nat, k: nat)
    requires CountIn(log, f, zone) <= 1 && i < |log| && k < |log| && Lies(log[i], f, zone) && Lies(log[k], f, zone)
    ensures i == k
  {
    hide Lies;
    var n := |log| - 1;
    CountPositive(log[..n], f, zone);
    assert forall j :: 0 <= j < n ==> log[..n][j] == log[j];
    if i < n && k < n {
      CountUnique(log[..n], f, zone, i, k);
    }
  }

  // ---- What the bank has done with them

  /** For one frame and one zone: whatever suppresses a repeat was itself found,
      each remembered occurrence of the zone was reported and the other way
      round, and a zone no wider than the tolerance has at most one report. */
  ghost predicate Grouped(b: Bank, f: Bytes, openings: set<int>, zone: iset<int>) {
    && (forall k :: 0 <= k < |b.occurrences| && b.occurrences[k].frame == f ==> b.occurrences[k].start in openings)
    && CountIn(b.occurrences, f, zone) == CountIn(b.log, f, zone)
    && (Together(openings, zone) ==> CountIn(b.log, f, zone) <= 1)
  }

  /** What is remembered of the zone opens no later than what was, and than
      what was found since. */
  ghost predicate NoLater(old': seq<Occurrence>, new': seq<Occurrence>, openings: set<int>, f: Bytes,
                          zone: iset<int>) {
    forall k :: 0 <= k < |new'| && Lies(new'[k], f, zone) ==>
      && (forall i :: 0 <= i < |old'| && Lies(old'[i], f, zone) ==> new'[k].start <= old'[i].start)
      && (forall a <- openings :: a in zone ==> new'[k].start <= a)
  }

  /** From `b` to `b'` all of `found` was reported or counted as a repeat, and
      the zone has a report exactly when it had one or something was found
      in it. */
  ghost predicate Accounts(b: Bank, b': Bank, found: seq<Found>, f: Bytes, openings: set<int>, zone: iset<int>) {
    && Grouped(b', f, openings, zone)
    && (CountIn(b'.log, f, zone) >= 1 <==> CountIn(b.log, f, zone) >= 1 || Meets(Openings(found, f), zone))
    && |b'.log| + b'.duplicates == |b.log| + b.duplicates + |found|
    && (Together(openings, zone) ==> NoLater(b.occurrences, b'.occurrences, Openings(found, f), f, zone))
  }

  lemma OpeningsOne(x: Found, f: Bytes)
    ensures Openings([x], f) == if x.frame == f then {x.start} else {}
  {
    assert x in [x];
  }

  lemma OpeningsConcat(x: seq<Found>, y: seq<Found>, f: Bytes)
    ensures Openings(x + y, f) == Openings(x, f) + Openings(y, f)
  {
  }

  lemma NoOpenings(f: Bytes)
    ensures Openings([], f) == {}
  {
  }

  /** Something new in the zone means the zone had no report. */
  lemma AcceptNew(b: Bank, item: Occurrence, f: Bytes, openings: set<int>, zone: iset<int>)
    requires Grouped(b, f, openings, zone) && (item.frame == f ==> item.start in openings)
    requires DuplicateIndex(b.occurrences, item) == |b.occurrences|
    ensures Together(openings, zone) && Lies(item, f, zone) ==> CountIn(b.log, f, zone) == 0
  {
    hide CountIn, DuplicateIndex;
    if Together(openings, zone) && Lies(item, f, zone) {
      CountPositive(b.occurrences, f, zone);
      assert forall k :: 0 <= k < |b.occurrences| ==> !SameOccurrence(b.occurrences[k], item);
    }
  }

  lemma AcceptAccounts(b: Bank, x: Found, item: Occurrence, f: Bytes, openings: set<int>, zone: iset<int>)
    requires Grouped(b, f, openings, zone) && Apart(openings, zone) && (x.frame == f ==> x.start in openings)
    requires item.frame == x.frame && item.start == x.start
    ensures Accounts(b, Accept(b, item), [x], f, openings, zone)
  {
    hide CountIn, DuplicateIndex, Together, NoLater;
    var b', i := Accept(b, item), DuplicateIndex(b.occurrences, item);
    OpeningsOne(x, f);
    if i == |b.occurrences| {
      AcceptNew(b, item, f, openings, zone);
      CountSnoc(b.occurrences, item, f, zone);
      CountSnoc(b.log, item, f, zone);
    } else {
      assert Lies(item, f, zone) == Lies(b.occurrences[i], f, zone);
      CountUpdate(b.occurrences, i, item, f, zone);
      CountPositive(b.occurrences, f, zone);
    }
    if Together(openings, zone) {
      AcceptNoLater(b, x, item, f, zone);
    }
  }

  lemma AcceptNoLater(b: Bank, x: Found, item: Occurrence, f: Bytes, zone: iset<int>)
    requires item.frame == x.frame && item.start == x.start
    requires CountIn(b.occurrences, f, zone) <= 1
    requires var i := DuplicateIndex(b.occurrences, item);
             if i == |b.occurrences| then Lies(item, f, zone) ==> CountIn(b.occurrences, f, zone) == 0
             else Lies(item, f, zone) == Lies(b.occurrences[i], f, zone)
    ensures NoLater(b.occurrences, Accept(b, item).occurrences, Openings([x], f), f, zone)
  {
    hide CountIn, DuplicateIndex, SameOccurrence;
    var occ, occ' := b.occurrences, Accept(b, item).occurrences;
    OpeningsOne(x, f);
    CountPositive(occ, f, zone);
    forall k, i | 0 <= k < |occ| && 0 <= i < |occ| && Lies(occ[k], f, zone) && Lies(occ[i], f, zone) ensures k == i {
      CountUnique(occ, f, zone, i, k);
    }
  }

  lemma AccountsCompose(a: Bank, b: Bank, c: Bank, x: seq<Found>, y: seq<Found>, f: Bytes, openings: set<int>,
                        zone: iset<int>)
    requires Grouped(a, f, openings, zone)
    requires Accounts(a, b, x, f, openings, zone) && Accounts(b, c, y, f, openings, zone)
    ensures Accounts(a, c, x + y, f, openings, zone)
  {
    hide CountIn, Openings, Together, NoLater, Meets;
    OpeningsConcat(x, y, f);
    MeetsEither(Openings(x, f), Openings(y, f), zone);
    if Together(openings, zone) {
      CountPositive(b.occurrences, f, zone);
      CountPositive(a.occurrences, f, zone);
      NoLaterCompose(a.occurrences, b.occurrences, c.occurrences, Openings(x, f), Openings(y, f), f, zone);
    }
  }

  lemma MeetsEither(s: set<int>, t: set<int>, zone: iset<int>)
    ensures Meets(s + t, zone) <==> Meets(s, zone) || Meets(t, zone)
  {
  }

  lemma NoLaterCompose(x: seq<Occurrence>, y: seq<Occurrence>, z: seq<Occurrence>, s: set<int>, t: set<int>, f: Bytes,
                       zone: iset<int>)
    requires NoLater(x, y, s, f, zone) && NoLater(y, z, t, f, zone)
    requires (exists i :: 0 <= i < |x| && Lies(x[i], f, zone)) || Meets(s, zone) ==>
               exists i :: 0 <= i < |y| && Lies(y[i], f, zone)
    ensures NoLater(x, z, s + t, f, zone)
  {
    hide Lies;
  }

  lemma AccountsNothing(b: Bank, f: Bytes, openings: set<int>, zone: iset<int>)
    requires Grouped(b, f, openings, zone)
    ensures Accounts(b, b, [], f, openings, zone)
  {
    hide CountIn;
    NoOpenings(f);
    if Together(openings, zone) {
      forall k, i | 0 <= k < |b.occurrences| && 0 <= i < |b.occurrences|
                    && Lies(b.occurrences[k], f, zone) && Lies(b.occurrences[i], f, zone)
        ensures k == i
      {
        CountUnique(b.occurrences, f, zone, i, k);
      }
    }
  }

  lemma AccountsGrouped(b: Bank, b': Bank, found: seq<Found>, f: Bytes, openings: set<int>, zone: iset<int>)
    requires Accounts(b, b', found, f, openings, zone)
    ensures Grouped(b', f, openings, zone)
  {
  }

  lemma {:induction false} AcceptAllAccounts(b: Bank, found: seq<Found>, h: Hypothesis, f: Bytes, openings: set<int>,
                                             zone: iset<int>)
    requires Grouped(b, f, openings, zone) && Apart(openings, zone) && Openings(found, f) <= openings
    ensures Accounts(b, AcceptAll(b, found, h), found, f, openings, zone)
    decreases |found|
  {
    hide Accept, Openings, Grouped, Accounts, Apart;
    if found == [] {
      AccountsNothing(b, f, openings, zone);
    } else {
      var x, rest := found[0], found[1..];
      assert found == [x] + rest;
      OpeningsConcat([x], rest, f);
      OpeningsOne(x, f);
      var item := Occurrence(x.frame, x.start, x.end, h.baud, h.phase);
      AcceptAccounts(b, x, item, f, openings, zone);
      AccountsGrouped(b, Accept(b, item), [x], f, openings, zone);
      AcceptAllAccounts(Accept(b, item), rest, h, f, openings, zone);
      AccountsCompose(b, Accept(b, item), AcceptAll(b, found, h), [x], rest, f, openings, zone);
    }
  }

  lemma ProcessAccounts(b: Bank, j: nat, table: MetricTable, samples: Bits, f: Bytes, openings: set<int>,
                        zone: iset<int>)
    requires Grouped(b, f, openings, zone) && Apart(openings, zone)
    requires j < |b.hyps| && WellTimed(b.hyps[j]) && SymbolEnd(b.hyps[j]) <= |samples|
    requires Openings(Advanced(b.hyps[j], table, samples).1, f) <= openings
    ensures Accounts(b, Process(b, j, table, samples), Advanced(b.hyps[j], table, samples).1, f, openings, zone)
  {
    hide AcceptAll, Advanced, WellTimed, SymbolEnd, Openings, CountIn, Apart;
    var (h, found) := Advanced(b.hyps[j], table, samples);
    AcceptAllAccounts(b.(hyps := b.hyps[j := h], decisions := b.decisions + 1), found, h, f, openings, zone);
  }

  /** One scan accounts for what the due hypotheses find. */
  lemma {:induction false} ScanAccounts(b: Bank, j: nat, table: MetricTable, samples: Bits, f: Bytes,
                                        openings: set<int>, zone: iset<int>)
    requires j <= |b.hyps| && AllWellTimed(b.hyps) && Grouped(b, f, openings, zone) && Apart(openings, zone)
    requires Openings(Due(b.hyps[j..], table, samples), f) <= openings
    ensures Accounts(b, ScanFrom(b, j, table, samples), Due(b.hyps[j..], table, samples), f, openings, zone)
    decreases |b.hyps| - j
  {
    hide Process, Advanced, WellTimed, SymbolEnd, Accounts, Grouped, Apart, Openings;
    if j == |b.hyps| {
      AccountsNothing(b, f, openings, zone);
    } else {
      var rest := b.hyps[j..];
      assert rest[0] == b.hyps[j] && rest[1..] == b.hyps[j + 1..];
      var more := Due(rest[1..], table, samples);
      if SymbolEnd(b.hyps[j]) == |samples| {
        var b1 := Process(b, j, table, samples);
        var found := Advanced(b.hyps[j], table, samples).1;
        OpeningsConcat(found, more, f);
        ProcessAccounts(b, j, table, samples, f, openings, zone);
        ProcessAdvances(b, j, table, samples);
        assert b1.hyps[j + 1..] == b.hyps[j + 1..];
        AccountsGrouped(b, b1, found, f, openings, zone);
        ScanAccounts(b1, j + 1, table, samples, f, openings, zone);
        AccountsCompose(b, b1, ScanFrom(b1, j + 1, table, samples), found, more, f, openings, zone);
      } else {
        assert [] + more == more;
        ScanAccounts(b, j + 1, table, samples, f, openings, zone);
      }
    }
  }

  /** The bank's hypotheses do not influence one another. */
  lemma {:induction false} DirectIsAlone(b: Bank, table: MetricTable, samples: Bits)
    requires AllWellTimed(b.hyps)
    ensures Direct(b, table, samples).hyps == AllAlone(b.hyps, table, samples)
    decreases |samples|
  {
    hide Advanced, WellTimed, SymbolEnd, ScanFrom;
    if samples != [] {
      DirectIsAlone(b, table, samples[..|samples| - 1]);
    }
  }

  /** One more sample adds to each hypothesis what it finds there. */
  lemma {:induction false} FoundByAllGrows(hyps: seq<Hypothesis>, table: MetricTable, samples: Bits)
    requires AllWellTimed(hyps) && samples != []
    ensures var before := samples[..|samples| - 1];
            var known, due := FoundByAll(hyps, table, before), Due(AllAlone(hyps, table, before), table, samples);
            multiset(FoundByAll(hyps, table, samples)) == multiset(known) + multiset(due)
    decreases |hyps|
  {
    hide Advanced, WellTimed, SymbolEnd;
    var before := samples[..|samples| - 1];
    if hyps != [] {
      var now := AllAlone(hyps, table, before);
      assert now[1..] == AllAlone(hyps[1..], table, before);
      FoundByAllGrows(hyps[1..], table, samples);
      var known := Alone(hyps[0], table, before).1;
      var more := if SymbolEnd(now[0]) == |samples| then Advanced(now[0], table, samples).1 else [];
      assert known + [] == known;
      assert Alone(hyps[0], table, samples).1 == known + more;
    }
  }

  /** Only what was found matters, not the order. */
  lemma AccountsAlike(b: Bank, b': Bank, x: seq<Found>, y: seq<Found>, f: Bytes, openings: set<int>, zone: iset<int>)
    requires Accounts(b, b', x, f, openings, zone) && multiset(x) == multiset(y)
    ensures Accounts(b, b', y, f, openings, zone)
  {
    hide Grouped, CountIn, Meets, Together, NoLater;
    SameOpenings(x, y, f);
    assert |multiset(x)| == |x| && |multiset(y)| == |y|;
  }

  lemma SameOpenings(x: seq<Found>, y: seq<Found>, f: Bytes)
    requires multiset(x) == multiset(y)
    ensures Openings(x, f) == Openings(y, f)
  {
    assert forall i :: i in multiset(x) <==> i in x;
    assert forall i :: i in multiset(y) <==> i in y;
  }

  lemma {:induction false} DirectAccounts(b: Bank, table: MetricTable, samples: Bits, f: Bytes, openings: set<int>,
                                          zone: iset<int>)
    requires AllWellTimed(b.hyps) && Unused(b) && Apart(openings, zone)
    requires Openings(FoundByAll(b.hyps, table, samples), f) <= openings
    ensures Accounts(b, Direct(b, table, samples), FoundByAll(b.hyps, table, samples), f, openings, zone)
    decreases |samples|
  {
    hide Alone, ScanFrom, WellTimed, AllAlone, Accounts, Due, Grouped, Apart, Openings, FoundByAll;
    if samples == [] {
      NothingAlone(b.hyps, table);
      UnusedIsGrouped(b, f, openings, zone);
      AccountsNothing(b, f, openings, zone);
    } else {
      var before := samples[..|samples| - 1];
      var b1 := Direct(b, table, before);
      var known, all := FoundByAll(b.hyps, table, before), FoundByAll(b.hyps, table, samples);
      DirectIsAlone(b, table, before);
      var due := Due(b1.hyps, table, samples);
      FoundByAllGrows(b.hyps, table, samples);
      assert multiset(known + due) == multiset(all);
      SameOpenings(known + due, all, f);
      OpeningsConcat(known, due, f);
      DirectAccounts(b, table, before, f, openings, zone);
      UnusedIsGrouped(b, f, openings, zone);
      AccountsGrouped(b, b1, known, f, openings, zone);
      assert b1.hyps[0..] == b1.hyps;
      ScanAccounts(b1, 0, table, samples, f, openings, zone);
      AccountsCompose(b, b1, Direct(b, table, samples), known, due, f, openings, zone);
      AccountsAlike(b, Direct(b, table, samples), known + due, all, f, openings, zone);
    }
  }

  lemma UnusedIsGrouped(b: Bank, f: Bytes, openings: set<int>, zone: iset<int>)
    requires Unused(b)
    ensures Grouped(b, f, openings, zone) && CountIn(b.log, f, zone) == 0
  {
  }

  lemma {:induction false} NothingAlone(hyps: seq<Hypothesis>, table: MetricTable)
    requires AllWellTimed(hyps)
    ensures FoundByAll(hyps, table, []) == []
  {
    hide WellTimed;
    if hyps != [] {
      NothingAlone(hyps[1..], table);
    }
  }

  /** The frames found among the first `m` symbols. */
  function FoundIn(h: Hypothesis, m: nat, table: MetricTable, samples: Bits): seq<Found>
    requires forall k :: 1 <= k <= m ==> WellTimed(Awaiting(h, k)) && SymbolEnd(Awaiting(h, k)) <= |samples|
  {
    ReceiveAll(h.rx, Symbols(h, m, table, samples), h.period).1
  }

  /** What one more symbol finds. */
  lemma FoundGrows(now: Hypothesis, h: Hypothesis, m: nat, table: MetricTable, samples: Bits, raw: bool)
    requires Constructed(h) && HasReceived(now, h, m, table, samples)
    ensures var s := samples + [raw];
            && WellTimed(now)
            && (SymbolEnd(now) == |s| ==>
                  var (next, found) := Advanced(now, table, s);
                  && HasReceived(next, h, m + 1, table, s)
                  && FoundIn(h, m + 1, table, s) == FoundIn(h, m, table, samples) + found)
            && (SymbolEnd(now) != |s| ==>
                  && HasReceived(now, h, m, table, s)
                  && FoundIn(h, m, table, s) == FoundIn(h, m, table, samples))
  {
    hide WellTimed, SymbolEnd, SymbolOf, Awaiting, Constructed, ReceiveAll, Receive, Symbols;
    var s := samples + [raw];
    var next := Awaiting(h, m + 1);
    ReceivesOneMore(now, h, m, table, samples, raw);
    AwaitingWellTimed(h, m + 1);
    SymbolsGrow(h, m, table, samples, raw);
    SameTiming(now, next, table, s);
    AwaitingBasics(h, m + 1);
    if SymbolEnd(now) == |s| {
      var old', y := Symbols(h, m, table, s), SymbolOf(next, table, s);
      assert Symbols(h, m + 1, table, s) == old' + [y] by { SymbolsSnoc(h, m, table, s); }
      ReceiveAllConcat(h.rx, old', [y], h.period);
      ReceiveOneFinds(ReceiveAll(h.rx, old', h.period).0, y, h.period);
    }
  }

  lemma ReceiveOneFinds(r: Receiver, y: Symbol, period: real)
    ensures ReceiveAll(r, [y], period).1 == Receive(r, y, period).1
  {
    hide Receive;
    assert [y][1..] == [];
    assert Receive(r, y, period).1 + [] == Receive(r, y, period).1;
  }

  /** Alone, a hypothesis finds exactly the frames among its symbols, each
      decided from the full history at its nominal place. */
  lemma {:induction false} AloneIsReceived(h: Hypothesis, table: MetricTable, samples: Bits) returns (m: nat)
    requires Constructed(h) && WellTimed(h)
    ensures HasReceived(Alone(h, table, samples).0, h, m, table, samples)
    ensures Alone(h, table, samples).1 == FoundIn(h, m, table, samples)
    decreases |samples|
  {
    hide WellTimed, Constructed, SymbolEnd, Advanced, HasReceived, FoundIn;
    if samples == [] {
      m := 0;
      ReceivedNothing(h, table);
      NothingFound(h, table);
    } else {
      var n := |samples| - 1;
      assert samples == samples[..n] + [samples[n]];
      m := AloneIsReceived(h, table, samples[..n]);
      var now := Alone(h, table, samples[..n]).0;
      FoundGrows(now, h, m, table, samples[..n], samples[n]);
      m := if SymbolEnd(now) == |samples| then m + 1 else m;
    }
  }

  lemma NothingFound(h: Hypothesis, table: MetricTable)
    ensures FoundIn(h, 0, table, []) == []
  {
  }

  // ---- What the whole bank reports

  /** Every sample at which some hypothesis of the bank finds `f` to open. */
  function BankOpenings(hyps: seq<Hypothesis>, table: MetricTable, samples: Bits, f: Bytes): set<int>
    requires AllWellTimed(hyps)
  {
    set j, x | 0 <= j < |hyps| && x in Alone(hyps[j], table, samples).1 && x.frame == f :: x.start
  }

  function TotalFound(hyps: seq<Hypothesis>, table: MetricTable, samples: Bits): nat
    requires AllWellTimed(hyps)
  {
    if hyps == [] then 0 else |Alone(hyps[0], table, samples).1| + TotalFound(hyps[1..], table, samples)
  }

  lemma {:induction false} TotalIsLength(hyps: seq<Hypothesis>, table: MetricTable, samples: Bits)
    requires AllWellTimed(hyps)
    ensures TotalFound(hyps, table, samples) == |FoundByAll(hyps, table, samples)|
  {
    hide Alone, WellTimed;
    if hyps != [] {
      TotalIsLength(hyps[1..], table, samples);
    }
  }

  lemma {:induction false} FoundBySome(hyps: seq<Hypothesis>, table: MetricTable, samples: Bits, x: Found)
    requires AllWellTimed(hyps)
    ensures x in FoundByAll(hyps, table, samples) <==>
              exists j :: 0 <= j < |hyps| && x in Alone(hyps[j], table, samples).1
  {
    hide Alone, WellTimed;
    if hyps != [] {
      FoundBySome(hyps[1..], table, samples, x);
      if j :| 0 <= j < |hyps[1..]| && x in Alone(hyps[1..][j], table, samples).1 {
        assert hyps[1..][j] == hyps[j + 1];
      }
      if j :| 1 <= j < |hyps| && x in Alone(hyps[j], table, samples).1 {
        assert hyps[1..][j - 1] == hyps[j];
      }
    }
  }

  lemma BankOpeningsAreFound(hyps: seq<Hypothesis>, table: MetricTable, samples: Bits, f: Bytes)
    requires AllWellTimed(hyps)
    ensures BankOpenings(hyps, table, samples, f) == Openings(FoundByAll(hyps, table, samples), f)
  {
    hide Alone, WellTimed, FoundByAll;
    forall x ensures x in FoundByAll(hyps, table, samples) <==>
                       exists j :: 0 <= j < |hyps| && x in Alone(hyps[j], table, samples).1
    {
      FoundBySome(hyps, table, samples, x);
    }
  }

  /** For any bank, any samples and any frame: each thing found by any
      hypothesis is reported or counted as a repeat; and where a zone of the
      history is clear of the rest by more than the tolerance, it holds a report
      if and only if some hypothesis finds the frame to open there; if all those
      openings are within the tolerance there is no second report, and the
      earliest of them is what is remembered. */
  lemma BankReportsExactly(b: Bank, table: MetricTable, samples: Bits, f: Bytes, zone: iset<int>)
    requires AllWellTimed(b.hyps) && Unused(b) && Apart(BankOpenings(b.hyps, table, samples, f), zone)
    ensures var b', openings := Direct(b, table, samples), BankOpenings(b.hyps, table, samples, f);
            && |b'.log| + b'.duplicates == b.duplicates + TotalFound(b.hyps, table, samples)
            && (CountIn(b'.log, f, zone) >= 1 <==> exists a <- openings :: a in zone)
            && (Together(openings, zone) ==> CountIn(b'.log, f, zone) <= 1)
            && (Together(openings, zone) ==>
                  forall k :: 0 <= k < |b'.occurrences| && Lies(b'.occurrences[k], f, zone) ==>
                    var first := b'.occurrences[k].start;
                    first in openings && forall a <- openings :: a in zone ==> first <= a)
  {
    hide Direct, Alone, WellTimed, Together, Apart, Openings, FoundByAll, BankOpenings, CountIn;
    BankOpeningsAreFound(b.hyps, table, samples, f);
    DirectAccounts(b, table, samples, f, BankOpenings(b.hyps, table, samples, f), zone);
    TotalIsLength(b.hyps, table, samples);
    UnusedIsGrouped(b, f, {}, zone);
  }

  predicate UpTo(s: int, cut: int) { s <= cut }

  /** Receptions of one frame that a gap of more than the tolerance separates
      are both reported: each opening has a report on its own side. */
  lemma RepeatsAreReported(b: Bank, table: MetricTable, samples: Bits, f: Bytes, cut: int)
    requires AllWellTimed(b.hyps) && Unused(b)
    requires forall a <- BankOpenings(b.hyps, table, samples, f) :: a <= cut || a > cut + TOLERANCE
    ensures forall a <- BankOpenings(b.hyps, table, samples, f) ::
              exists o <- Direct(b, table, samples).log :: o.frame == f && (o.start <= cut <==> a <= cut)
  {
    hide Direct, Alone, WellTimed, BankOpenings, CountIn;
    var early, late := iset s: int | UpTo(s, cut), iset s: int | !UpTo(s, cut);
    var log := Direct(b, table, samples).log;
    BankReportsExactly(b, table, samples, f, early);
    BankReportsExactly(b, table, samples, f, late);
    CountPositive(log, f, early);
    CountPositive(log, f, late);
  }

  // ---- Bursts that are heard

  /** A burst heard from symbol `from` on: its tones are decided one by one, and
      it has two opening flags, or one and the tone before it was right. */
  predicate Heard(ys: seq<Symbol>, from: nat, to: nat, burst: Burst)
    requires Sendable(burst)
  {
    && from <= to <= |ys| && SelectorsOf(ys[from..to]) == Sent(burst)
    && (burst.preFlags >= 2 || (from > 0 && ys[from - 1].selector == burst.tone))
  }

  /** A receiver that hears a deliverable burst finds its frame to open during
      the burst, whatever came before and whatever comes after. */
  lemma HeardIsFound(r: Receiver, ys: seq<Symbol>, from: nat, to: nat, burst: Burst, period: real) returns (x: Found)
    requires Bounded(r.link) && Sendable(burst) && Heard(ys, from, to, burst) && Delivered(burst.frame) != []
    ensures x in ReceiveAll(r, ys, period).1 && x.frame == burst.frame && OpensAmong(x.start, ys[from..to], period)
  {
    hide ReceiveAll, Sendable, SelectorsOf, Bounded, OpensAmong, Delivered;
    var r1 := ReceiveAll(r, ys[..from], period).0;
    ReceiveAllKeepsBounded(r, ys[..from], period);
    assert from > 0 ==> ys[..from][from - 1] == ys[from - 1];
    x := HeardAfresh(r1, ys[from..to], burst, period);
    FoundOnTheWay(r, ys, from, to, period, x);
  }

  /** What is found in a stretch of the symbols is found in all of them. */
  lemma FoundOnTheWay(r: Receiver, ys: seq<Symbol>, from: nat, to: nat, period: real, x: Found)
    requires from <= to <= |ys|
    requires x in ReceiveAll(ReceiveAll(r, ys[..from], period).0, ys[from..to], period).1
    ensures x in ReceiveAll(r, ys, period).1
  {
    hide ReceiveAll;
    var r1 := ReceiveAll(r, ys[..from], period).0;
    ReceiveAllConcat(r1, ys[from..to], ys[to..], period);
    assert ys[from..to] + ys[to..] == ys[from..];
    ReceiveAllConcat(r, ys[..from], ys[from..], period);
    assert ys[..from] + ys[from..] == ys;
  }

  /** The frame's opening is the burst's own: a receiver that has forgotten its
      candidate finds it just the same. */
  lemma HeardAfresh(r: Receiver, ys: seq<Symbol>, burst: Burst, period: real) returns (x: Found)
    requires Bounded(r.link) && Sendable(burst) && SelectorsOf(ys) == Sent(burst) && Delivered(burst.frame) != []
    requires burst.preFlags >= 2 || r.previous == Some(burst.tone)
    ensures x in ReceiveAll(r, ys, period).1 && x.frame == burst.frame && OpensAmong(x.start, ys, period)
  {
    hide ReceiveAll, SelectorsOf, Synced, OpensAmong, Frames, Delivered;
    assert |ys| >= 8 by { SentLength(burst); }
    var r0 := Forgetting(r);
    var found := ReceiveAll(r0, ys, period).1;
    BurstDelivered(r0, ys, burst, period);
    OnlyItsFrame(burst.frame);
    x := LastFrame(ReceiveAll(r0, ys[..8], period).1, found, burst.frame);
    ForgettingFindsTail(r, ys, period);
    OpensAfresh(r0, ys, period);
  }

  lemma OnlyItsFrame(frame: Bytes)
    ensures Delivered(frame) != [] ==> Delivered(frame) == [frame]
  {
    hide Stuff, Acceptable;
  }

  lemma LastFrame(left: seq<Found>, found: seq<Found>, f: Bytes) returns (x: Found)
    requires Frames(found) == Frames(left) + [f]
    ensures found != [] && x == found[|found| - 1] && x.frame == f
  {
    x := found[|found| - 1];
    assert Frames(found)[|left|] == f;
  }

  /** `zone` holds every sample at which the burst could be found to open. */
  ghost predicate Covers(zone: iset<int>, ys: seq<Symbol>, from: nat, to: nat, period: real) {
    forall i :: from <= i < to && i < |ys| ==> OpeningAfter(ys[i], period) in zone
  }

  lemma HeardInZone(r: Receiver, ys: seq<Symbol>, from: nat, to: nat, burst: Burst, period: real, zone: iset<int>)
      returns (x: Found)
    requires Bounded(r.link) && Sendable(burst) && Heard(ys, from, to, burst) && Delivered(burst.frame) != []
    requires Covers(zone, ys, from, to, period)
    ensures x in ReceiveAll(r, ys, period).1 && x.frame == burst.frame && x.start in zone
  {
    hide ReceiveAll, Sendable, SelectorsOf, Bounded, Delivered, OpeningAfter;
    x := HeardIsFound(r, ys, from, to, burst, period);
    var i :| 0 <= i < |ys[from..to]| && x.start == OpeningAfter(ys[from..to][i], period);
    assert ys[from..to][i] == ys[from + i];
  }

  /** From tones to reports: whatever the other hypotheses of any bank decide, a
      deliverable burst that one of them hears, anywhere in any history, has a
      report of its own, if a zone around it is clear of the frame's other
      receptions by more than the tolerance.  (The whole history always is, so
      its frame is reported at any rate: `HeardAtAll`.) */
  lemma HeardBurstIsReported(b: Bank, j: nat, table: MetricTable, samples: Bits, burst: Burst) returns (m: nat)
    requires AllWellTimed(b.hyps) && Unused(b) && j < |b.hyps| && Constructed(b.hyps[j]) && Sendable(burst)
    ensures HasReceived(Direct(b, table, samples).hyps[j], b.hyps[j], m, table, samples)
    ensures var ys := Symbols(b.hyps[j], m, table, samples);
            forall from: nat, to: nat, zone: iset<int> ::
              && Heard(ys, from, to, burst) && Delivered(burst.frame) == [burst.frame]
              && Covers(zone, ys, from, to, b.hyps[j].period)
              && Apart(BankOpenings(b.hyps, table, samples, burst.frame), zone) ==>
                CountIn(Direct(b, table, samples).log, burst.frame, zone) >= 1
  {
    hide Direct, Alone, WellTimed, SymbolEnd, Awaiting, Symbols, Heard, Sendable, Delivered, ReceiveAll, Apart,
         CountIn, OpeningAfter;
    var h := b.hyps[j];
    m := AloneIsReceived(h, table, samples);
    DirectIsAlone(b, table, samples);
    var ys := Symbols(h, m, table, samples);
    forall from: nat, to: nat, zone: iset<int> |
      && Heard(ys, from, to, burst) && Delivered(burst.frame) == [burst.frame]
      && Covers(zone, ys, from, to, h.period) && Apart(BankOpenings(b.hyps, table, samples, burst.frame), zone)
      ensures CountIn(Direct(b, table, samples).log, burst.frame, zone) >= 1
    {
      var x := HeardInZone(h.rx, ys, from, to, burst, h.period, zone);
      assert x.start in BankOpenings(b.hyps, table, samples, burst.frame);
      BankReportsExactly(b, table, samples, burst.frame, zone);
    }
  }

  lemma HeardAtAll(b: Bank, j: nat, table: MetricTable, samples: Bits, burst: Burst) returns (m: nat)
    requires AllWellTimed(b.hyps) && Unused(b) && j < |b.hyps| && Constructed(b.hyps[j]) && Sendable(burst)
    ensures HasReceived(Direct(b, table, samples).hyps[j], b.hyps[j], m, table, samples)
    ensures forall from: nat, to: nat :: Heard(Symbols(b.hyps[j], m, table, samples), from, to, burst) ==>
              forall f <- Delivered(burst.frame) :: exists o <- Direct(b, table, samples).log :: o.frame == f
  {
    hide Direct, WellTimed, SymbolEnd, Awaiting, Symbols, Heard, Sendable, BankOpenings, CountIn, HasReceived,
         Acceptable, Stuff, Constructed;
    m := HeardBurstIsReported(b, j, table, samples, burst);
    var everywhere := iset s: int | UpTo(s, s);
    CountPositive(Direct(b, table, samples).log, burst.frame, everywhere);
    assert forall ys: seq<Symbol>, from, to, period :: Covers(everywhere, ys, from, to, period);
    assert Apart(BankOpenings(b.hyps, table, samples, burst.frame), everywhere);
  }

  /** Everything reported parses, with a valid check sequence. */
  lemma ReportsAreAcceptable(b: Bank, table: MetricTable, samples: Bits, o: Occurrence)
    requires AllWellTimed(b.hyps) && Unused(b) && AllConstructed(b.hyps) && o in Direct(b, table, samples).log
    ensures Acceptable(o.frame)
  {
    hide Direct, Alone, WellTimed, Constructed, Acceptable, HasReceived, CountIn;
    var log, everywhere := Direct(b, table, samples).log, iset s: int | UpTo(s, s);
    BankReportsExactly(b, table, samples, o.frame, everywhere);
    CountPositive(log, o.frame, everywhere);
    var k :| 0 <= k < |log| && log[k] == o;
    assert Lies(log[k], o.frame, everywhere);
    var j, x :| 0 <= j < |b.hyps| && x in Alone(b.hyps[j], table, samples).1 && x.frame == o.frame;
    AloneFindsAcceptable(b.hyps[j], table, samples);
  }

  /** The report is of something in `found`, with the rate and phase of `h`. */
  predicate Names(o: Occurrence, h: Hypothesis, found: seq<Found>) {
    o.baud == h.baud && o.phase == h.phase && Found(o.frame, o.start, o.end) in found
  }

  lemma {:induction false} AcceptAllLogs(b: Bank, found: seq<Found>, h: Hypothesis, o: Occurrence)
    requires o in AcceptAll(b, found, h).log
    ensures o in b.log || Names(o, h, found)
    decreases |found|
  {
    if found != [] {
      var item := Occurrence(found[0].frame, found[0].start, found[0].end, h.baud, h.phase);
      AcceptAllLogs(Accept(b, item), found[1..], h, o);
    }
  }

  /** A hypothesis that was due found it at the last sample. */
  ghost predicate DueNames(o: Occurrence, hyps: seq<Hypothesis>, i: nat, table: MetricTable, samples: Bits)
    requires AllWellTimed(hyps)
  {
    && i < |hyps| && SymbolEnd(hyps[i]) == |samples|
    && Names(o, hyps[i], Advanced(hyps[i], table, samples).1)
  }

  lemma {:induction false} ScanLogs(b: Bank, j: nat, table: MetricTable, samples: Bits, o: Occurrence)
    requires j <= |b.hyps| && AllWellTimed(b.hyps) && o in ScanFrom(b, j, table, samples).log
    ensures o in b.log || exists i: nat :: i >= j && DueNames(o, b.hyps, i, table, samples)
    decreases |b.hyps| - j
  {
    hide Advanced, WellTimed, SymbolEnd, Names, AcceptAll, Process, ScanFrom;
    if j < |b.hyps| {
      ScanUnfolds(b, j, table, samples);
      if SymbolEnd(b.hyps[j]) != |samples| {
        ScanLogs(b, j + 1, table, samples, o);
      } else {
        var b1 := Process(b, j, table, samples);
        ProcessAdvances(b, j, table, samples);
        ScanLogs(b1, j + 1, table, samples, o);
        if o in b1.log {
          ProcessLogs(b, j, table, samples, o);
        } else {
          var i: nat :| i >= j + 1 && DueNames(o, b1.hyps, i, table, samples);
          assert DueNames(o, b.hyps, i, table, samples);
        }
      }
    } else {
      ScanUnfolds(b, j, table, samples);
    }
  }

  lemma ScanUnfolds(b: Bank, j: nat, table: MetricTable, samples: Bits)
    requires j <= |b.hyps| && AllWellTimed(b.hyps)
    ensures ScanFrom(b, j, table, samples) ==
              if j == |b.hyps| then b
              else ScanFrom(if SymbolEnd(b.hyps[j]) == |samples| then Process(b, j, table, samples) else b, j + 1,
                            table, samples)
  {
    hide Process, WellTimed, SymbolEnd;
  }

  lemma ProcessLogs(b: Bank, j: nat, table: MetricTable, samples: Bits, o: Occurrence)
    requires j < |b.hyps| && AllWellTimed(b.hyps) && SymbolEnd(b.hyps[j]) == |samples|
    requires o in Process(b, j, table, samples).log
    ensures o in b.log || DueNames(o, b.hyps, j, table, samples)
  {
    hide WellTimed, SymbolEnd, AcceptAll, Receive, SymbolOf;
    var (h, found) := Advanced(b.hyps[j], table, samples);
    AcceptAllLogs(b.(hyps := b.hyps[j := h], decisions := b.decisions + 1), found, h, o);
  }

  lemma {:induction false} AloneKeepsTiming(h: Hypothesis, table: MetricTable, samples: Bits)
    requires WellTimed(h)
    ensures Alone(h, table, samples).0.baud == h.baud && Alone(h, table, samples).0.phase == h.phase
    decreases |samples|
  {
    hide WellTimed, SymbolEnd, Receive, SymbolOf;
    if samples != [] { AloneKeepsTiming(h, table, samples[..|samples| - 1]); }
  }

  /** Every report is something that a hypothesis of the bank found on its own,
      with that frame, opening and end, under that hypothesis's own rate and
      phase. */
  lemma {:induction false} ReportsNameTheirHypothesis(b: Bank, table: MetricTable, samples: Bits, o: Occurrence)
      returns (j: nat)
    requires AllWellTimed(b.hyps) && Unused(b) && o in Direct(b, table, samples).log
    ensures j < |b.hyps| && Names(o, b.hyps[j], Alone(b.hyps[j], table, samples).1)
    decreases |samples|
  {
    hide Advanced, WellTimed, SymbolEnd, ScanFrom, DueNames, Alone;
    var before := samples[..|samples| - 1];
    var b1 := Direct(b, table, before);
    if o in b1.log {
      j := ReportsNameTheirHypothesis(b, table, before, o);
      AloneStep(b.hyps[j], table, samples);
    } else {
      ScanLogs(b1, 0, table, samples, o);
      DirectIsAlone(b, table, before);
      j :| DueNames(o, b1.hyps, j, table, samples);
      DueIsFound(b.hyps, j, table, samples, o);
    }
  }

  lemma AloneStep(h: Hypothesis, table: MetricTable, samples: Bits)
    requires WellTimed(h) && samples != []
    ensures var (now, found) := Alone(h, table, samples[..|samples| - 1]);
            Alone(h, table, samples).1 ==
              found + (if SymbolEnd(now) == |samples| then Advanced(now, table, samples).1 else [])
  {
    hide WellTimed, SymbolEnd, Advanced;
  }

  lemma DueIsFound(hyps: seq<Hypothesis>, j: nat, table: MetricTable, samples: Bits, o: Occurrence)
    requires AllWellTimed(hyps) && samples != []
    requires DueNames(o, AllAlone(hyps, table, samples[..|samples| - 1]), j, table, samples)
    ensures j < |hyps| && Names(o, hyps[j], Alone(hyps[j], table, samples).1)
  {
    hide WellTimed, SymbolEnd, Advanced, Alone;
    AloneKeepsTiming(hyps[j], table, samples[..|samples| - 1]);
    AloneStep(hyps[j], table, samples);
  }

  lemma AloneFindsAcceptable(h: Hypothesis, table: MetricTable, samples: Bits)
    requires Constructed(h) && WellTimed(h)
    ensures forall f <- Alone(h, table, samples).1 :: Acceptable(f.frame)
  {
    hide Alone, WellTimed, Constructed, Acceptable, Symbols, ReceiveAll, SymbolEnd, Awaiting;
    var m := AloneIsReceived(h, table, samples);
    ReceiveAllFindsAcceptable(h.rx, Symbols(h, m, table, samples), h.period);
  }

  // ---- The decoder object

  /** The same of the decoder object, with whatever bank it was constructed:
      after any samples in any chunks, every deliverable burst that one of its
      hypotheses hears is among its reports, and anew if it is clear of other
      receptions of its frame. */
  lemma DecoderReports(d: StreamingBell202Decoder, j: nat, burst: Burst) returns (m: nat)
    requires d.Valid() && j < |d.initial.hyps| && Sendable(burst)
    ensures j < |d.hypotheses| && HasReceived(d.hypotheses[j], d.initial.hyps[j], m, d.table, d.samples)
    ensures var h := d.initial.hyps[j];
            var ys := Symbols(h, m, d.table, d.samples);
            forall from: nat, to: nat, zone: iset<int> ::
              && Heard(ys, from, to, burst) && Delivered(burst.frame) == [burst.frame]
              && Covers(zone, ys, from, to, h.period)
              && Apart(BankOpenings(d.initial.hyps, d.table, d.samples, burst.frame), zone) ==>
                CountIn(d.log, burst.frame, zone) >= 1
  {
    hide Direct, HasReceived, Heard, Sendable, Delivered, Symbols, Constructed, WellTimed, Covers, Apart, CountIn,
         BankOpenings, StreamingBell202Decoder.RingsValid, StreamingBell202Decoder.ScheduleValid, AllEndFrom;
    m := HeardBurstIsReported(d.initial, j, d.table, d.samples, burst);
  }

  /** And what its hypotheses find of one frame within the tolerance, clear of
      the rest, is reported exactly once. */
  lemma DecoderReportsOnce(d: StreamingBell202Decoder, f: Bytes, zone: iset<int>)
    requires d.Valid()
    ensures var openings := BankOpenings(d.initial.hyps, d.table, d.samples, f);
            Apart(openings, zone) && Together(openings, zone) ==>
              CountIn(d.log, f, zone) == if exists a <- openings :: a in zone then 1 else 0
  {
    hide Direct, Constructed, WellTimed, Together, Apart, CountIn, BankOpenings,
         StreamingBell202Decoder.RingsValid, StreamingBell202Decoder.ScheduleValid, AllEndFrom;
    if Apart(BankOpenings(d.initial.hyps, d.table, d.samples, f), zone) {
      BankReportsExactly(d.initial, d.table, d.samples, f, zone);
    }
  }

  /** And receptions of one frame that a gap separates are all reported, each
      on its own side. */
  lemma DecoderReportsRepeats(d: StreamingBell202Decoder, f: Bytes, cut: int)
    requires d.Valid()
    requires forall a <- BankOpenings(d.initial.hyps, d.table, d.samples, f) :: a <= cut || a > cut + TOLERANCE
    ensures forall a <- BankOpenings(d.initial.hyps, d.table, d.samples, f) ::
              exists o <- d.log :: o.frame == f && (o.start <= cut <==> a <= cut)
  {
    hide Direct, Constructed, WellTimed, BankOpenings,
         StreamingBell202Decoder.RingsValid, StreamingBell202Decoder.ScheduleValid, AllEndFrom;
    RepeatsAreReported(d.initial, d.table, d.samples, f, cut);
  }

  /** And everything it reports can be parsed. */
  lemma DecoderReportsParse(d: StreamingBell202Decoder, o: Occurrence)
    requires d.Valid() && o in d.log
    ensures Acceptable(o.frame)
  {
    hide Direct, Acceptable, WellTimed, Constructed,
         StreamingBell202Decoder.RingsValid, StreamingBell202Decoder.ScheduleValid, AllEndFrom;
    ReportsAreAcceptable(d.initial, d.table, d.samples, o);
  }

  // ---- One timing hypothesis: the reports in order

  /** With a single timing hypothesis nothing is suppressed, so the reports are
      its frames, one by one and in order. */
  lemma {:induction false} SingleHypothesisReports(b: Bank, table: MetricTable, samples: Bits)
    requires |b.hyps| == 1 && Constructed(b.hyps[0]) && AllWellTimed(b.hyps) && Unused(b)
    ensures Reported([], Direct(b, table, samples).log, Alone(b.hyps[0], table, samples).1)
    decreases |samples|
  {
    hide ScanFrom, WellTimed, Constructed, SymbolEnd, Spaced, Advanced, Awaiting, Process, Reported;
    var h := b.hyps[0];
    if samples == [] {
      NothingReported();
    } else {
      var before := Direct(b, table, samples[..|samples| - 1]);
      SingleHypothesisReports(b, table, samples[..|samples| - 1]);
      var m, starts, o := SingleHypothesisKeepsRepeats(b, table, samples[..|samples| - 1]);
      DirectIsAlone(b, table, samples[..|samples| - 1]);
      SingleScan(before, table, samples);
      if SymbolEnd(before.hyps[0]) == |samples| {
        starts, o := SpacedStep(before, h, m, starts, o, table, samples);
        ReportedConcat(before.log, Process(before, 0, table, samples).log,
                       Alone(h, table, samples[..|samples| - 1]).1, Advanced(before.hyps[0], table, samples).1);
      }
    }
  }

  lemma NothingReported()
    ensures Reported([], [], [])
  {
  }

  lemma ReportedConcat(log: seq<Occurrence>, log': seq<Occurrence>, x: seq<Found>, y: seq<Found>)
    requires Reported([], log, x) && Reported(log, log', y)
    ensures Reported([], log', x + y)
  {
    assert forall i :: 0 <= i < |x| ==> log'[i] == log[i];
    assert forall i :: 0 <= i < |y| ==> log'[|x| + i].frame == y[i].frame;
  }

  /** And if its tones are those of back-to-back bursts with at least two
      opening flags each, the reports are exactly the frames of those bursts. */
  lemma BurstsAreReportedInOrder(b: Bank, table: MetricTable, samples: Bits, bursts: seq<Burst>) returns (m: nat)
    requires |b.hyps| == 1 && Constructed(b.hyps[0]) && AllWellTimed(b.hyps) && Unused(b)
    requires bursts != [] && forall i :: 0 <= i < |bursts| ==> Sendable(bursts[i]) && bursts[i].preFlags >= 2
    ensures HasReceived(Direct(b, table, samples).hyps[0], b.hyps[0], m, table, samples)
    ensures SelectorsOf(Symbols(b.hyps[0], m, table, samples)) == SentAll(bursts) ==>
              var log, frames := Direct(b, table, samples).log, DeliveredAll(bursts);
              |log| == |frames| && forall i :: 0 <= i < |log| ==> log[i].frame == frames[i]
  {
    hide Direct, Alone, WellTimed, SymbolEnd, Awaiting, Symbols, SentAll, DeliveredAll, Sendable, ReceiveAll,
         SelectorsOf;
    var h := b.hyps[0];
    m := AloneIsReceived(h, table, samples);
    DirectIsAlone(b, table, samples);
    SingleHypothesisReports(b, table, samples);
    var ys := Symbols(h, m, table, samples);
    if SelectorsOf(ys) == SentAll(bursts) {
      LinkDelivers(h.rx, ys, bursts, h.period);
      assert Frames(Alone(h, table, samples).1) == DeliveredAll(bursts);
    }
  }
}
