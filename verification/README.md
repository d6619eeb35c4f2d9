# A verified model of the YWD-1278 packet-radio TNC

This project models the protocol core of a 1200-baud AX.25 packet TNC and
proves what that core is for: that what is sent is received, that the channel
is never used without having been heard clear, that no frame is transmitted
twice, and that no byte or request is lost or counted twice on the way.

Four layers are modelled, and they compose.

* **Link layer** (`Primitives`, `Fcs`, `Hdlc`, `Ax25`, `Deframer`,
  `Demodulator`, `Reception`, `SampleReception`). CRC-16/X-25, bit stuffing, flags, NRZI, packed selectors,
  the AX.25 address and frame codec (sections 3.6, 3.7 and 3.12 of AX.25 v2.2),
  the flag-hunting receiver, and the streaming Bell-202 decoder with its tagged
  rings, its schedule of timing hypotheses and its duplicate suppression. The
  decoder object refines a direct demodulation over the full history, and for
  any bank of hypotheses its reports are characterised reception by reception,
  from the samples on.
* **Channel access and admission** (`ChannelAccess`, `AdmissionQueue`,
  `QueueRuns`, `Trials`, `TrialRuns`, `AccessQueue`, `LockedQueue`). Busy detector, p-persistent CSMA,
  the bounded queue with captured parameters. Results range over every run of
  admissions and RSSI samples, and give every answer from the samples and drawn
  bytes alone.
* **Transmit lifecycle** (`TxDelay`, `HalfDuplex`, `TransmitStack`,
  `TransmitWindow`, `Dispatch`, `Monitor`, `MonitorRaces`, `Runtime`). RX_STOP,
  TX, idle, RX_START against a modem that may fail or answer anything at each
  call; brokers, routers and producers as interleaved
  steps; the lifecycle events; the worker loop.
* **KISS** (`KissFraming`, `Control`, `Ingress`). Incremental against batch
  decoding, parameter generations, ingress accounting.

Objects that the program updates in place are classes. Each of their methods is
proved against a specification function on values, and the laws are lemmas
about those functions. Exceptions are `Result` or `Option` values, time is
`real`, and whatever the environment may choose (modem answers, submitter
outcomes, randomness, clock readings, thread interleavings, the moment of a stop
request) is either a parameter or chosen arbitrarily.

The strongest statements are `SampleReception.DecoderHearsSamples`,
`Reception.DecoderReportsOnce`, `Reception.BankReportsExactly`,
`TransmitStack.DispatchedIsReceived`, `TransmitStack.EveryBurstHeardClear`,
`TransmitStack.AtMostOneBurst`, `Dispatch.DispatchedIff`,
`Dispatch.HealthyDispatches`, `TrialRuns.AnswerFromHistory`,
`QueueRuns.DispatchSafety`, `HalfDuplex.CycleOutcomes`, `Fcs.BurstErrorRejected`,
`Monitor.LifecycleOfEveryRequest`, `MonitorRaces.TrackerIsExact` and
`Runtime.SustainedTNCRuntime.Run`.

Six properties that one might expect do not hold unconditionally, and the model
states exactly when they do:

* A burst with a single opening flag (TXDELAY 0) is received exactly when the
  receiver's previous tone was the sender's initial one
  (`Deframer.BurstDelivered`).
* A drain pass is sure to take every byte that waited in a full receive FIFO when
  it began exactly when the configured read size is at least 128; the constructor admits 1 to 200
  (`Runtime.WholeFifoNeedsLargeReads`). The comment in the worker speaks only of
  the default of 200.
* A request outlives its channel-access policy's own timeout exactly when the
  captured bound is not shorter than the queue lifetime
  (`QueueRuns.InnerTimeoutNeedsShortBound`, `QueueRuns.ShortBoundTimesOut`); the
  ingress always captures the lifetime itself (`Ingress.OnlyTheLifetimeExpires`).
* Two persistence trials of one request are always a slot apart, but the channel
  may have been busy between them (`Trials.BusyBetweenTrials`), and then the hold
  lies between them too: closer trials than that have no busy sample between them
  (`TrialRuns.TrialsAreApart`).
* Every burst is keyed while its own submission has reception stopped in every
  run in which no wait for the broker runs out on an unfinished job
  (`TransmitWindow.BurstsStayInTheirWindow`). Where one does, and only there, a job
  stays with the broker that nobody waits for
  (`TransmitWindow.OnlyAbandoningOpensTheWindow`), and such a job is exactly what
  it takes for a later burst outside its window (`TransmitWindow.SafeIffWindowed`,
  `TransmitWindow.AbandonedJobIsSentOutside`, `TransmitWindow.WindowCanBeMissed`).
* Between observations the monitor's tracker agrees with the queue if and only if
  it was never told to finish a request before its producer had tracked it
  (`MonitorRaces.TrackerIsExact`). A request that this happens to is never got rid
  of (`MonitorRaces.OvertakenLeaks`), and once such a record heads the tracker, all
  later events except those of admissions carry its fields
  (`MonitorRaces.LeakedHeadLabelsEverything`, `MonitorRaces.LateTrackingLeaks`).

`dafny verify dfyconfig.toml` checks everything.

## Model

| member | source | states |
|---|---|---|
| Fcs.ShiftEight | src/ywd1278/ax25/codec.py:74-81 | the inner eight-step loop is eight applications of the register shift |
| Fcs.CrcX25 | src/ywd1278/ax25/codec.py:71-82 | the two nested loops compute the CRC of the whole byte string |
| Fcs.CrcOfNothing | src/ywd1278/ax25/codec.py:71-82 | the start value and the final inversion cancel: the empty string has check sequence zero |
| Fcs.RegisterIsClocked | src/ywd1278/ax25/codec.py:71-82 | folding octets into the register is clocking the transmitted bits in one at a time, least significant first |
| Fcs.VerifyIffResidue | src/ywd1278/ax25/codec.py:91-97 | a frame verifies if and only if the raw register over all of it, check sequence included, ends at the residue 0xF0B8; shorter than two octets never does |
| Fcs.AppendedFcsVerifies | src/ywd1278/ax25/codec.py:85-97 | a frame that was just given its check sequence verifies |
| Fcs.BurstErrorRejected | src/ywd1278/ax25/codec.py:71-97 | any change of a valid frame of any length confined to 16 consecutive transmitted bits is rejected, also across the data/FCS boundary |
| Hdlc.FlagIs7E | src/ywd1278/phy/bell202_tx.py:36-39 | the flag octet 0x7E in transmission order |
| Hdlc.ByteBitsLsb | src/ywd1278/phy/bell202_tx.py:27-33 | the loop yields every octet least significant bit first |
| Hdlc.StuffBits | src/ywd1278/phy/bell202_tx.py:42-57 | the loop computes the stuffing function |
| Hdlc.UnstuffBits | src/ywd1278/phy/bell202_tx.py:60-80 | the loop computes the unstuffing function, including the error for a missing stuffed zero |
| Hdlc.StuffingIsABijection | src/ywd1278/phy/bell202_tx.py:42-80 | unstuffing accepts exactly the image of stuffing and recovers the one string that was stuffed |
| Hdlc.OnlyTheDelimitersAreFlags | src/ywd1278/phy/bell202_tx.py:83-101 | between two flags no flag pattern appears at any other offset, inside the stuffed body or straddling a delimiter |
| Hdlc.StuffedLength | src/ywd1278/phy/bell202_tx.py:42-57 | stuffing adds at most one bit for every five and never removes any |
| Hdlc.BitsToBytesLsb | src/ywd1278/phy/bell202_rx.py:124-136 | the nested loops rebuild the octets, and reject a bit count that is not a multiple of eight |
| Hdlc.OctetsRoundTrip | src/ywd1278/phy/bell202_rx.py:124-136 | the octets come back if and only if the bits are their serialization |
| Hdlc.NrziEncode | src/ywd1278/phy/bell202_tx.py:104-119 | the loop computes NRZI tone selectors from the initial tone |
| Hdlc.NrziDecode | src/ywd1278/phy/bell202_tx.py:122-133 | the loop computes the bits from tone selectors |
| Hdlc.NrziByTone | src/ywd1278/phy/bell202_tx.py:104-119 | at every position a one bit keeps the tone before it and a zero bit changes it |
| Hdlc.NrziRoundTrip | src/ywd1278/phy/bell202_tx.py:104-133 | from one initial tone, decoding gives the bits if and only if the selectors are their encoding |
| Hdlc.PackSelectors | src/ywd1278/phy/bell202_tx.py:136-143 | in-place packing, most significant bit first, sets exactly the selected bits and pads with zeros |
| Hdlc.PackingRoundTrip | src/ywd1278/phy/bell202_tx.py:136-154 | unpacking a packing gives the selectors back, and the packing of a selector string is unique |
| Ax25.EncodeInvertsDecode | src/ywd1278/ax25/codec.py:100-140 | re-encoding any decoded address field reproduces its seven octets |
| Ax25.DecodeInvertsEncode | src/ywd1278/ax25/codec.py:100-140 | every standard address and its last-address flag survive encoding and decoding |
| Ax25.ReadAddresses | src/ywd1278/ax25/codec.py:143-158 | the loop computes the address list with its four error cases, and the offset of the control octet |
| Ax25.ListReencodes | src/ywd1278/ax25/codec.py:143-158 | re-encoding the decoded list of any accepted data reproduces its address octets |
| Ax25.ListDecodes | src/ywd1278/ax25/codec.py:143-186 | an encoded list of standard addresses decodes to itself exactly up to eleven addresses in all |
| Ax25.WriteAddresses | src/ywd1278/ax25/codec.py:161-186 | the loop writes the list with the end mark on its last address only |
| Ax25.PrintInvertsParse | src/ywd1278/ax25/codec.py:189-261 | every octet of an accepted body is recovered from the parsed frame |
| Ax25.AddressOctets | src/ywd1278/ax25/codec.py:100-113 | where a standard address puts its shifted characters, padding, SSID, reserved bits, C/H bit and end mark |
| Ax25.ControlOctet | src/ywd1278/ax25/codec.py:228-249 | for all 256 control octets: class, N(S), N(R) and supervisory code are given by the octet's bits |
| Ax25.UnnumberedCode | src/ywd1278/ax25/codec.py:249-254 | the code of an unnumbered frame is the octet with its P/F bit cleared |
| Ax25.ParseByOctets | src/ywd1278/ax25/codec.py:189-261 | a body that begins with two to eleven standard addresses is accepted if and only if a control octet follows, and a PID where the octet is an I or UI one; every field of the result is given by those octets |
| Ax25.ParsedIsFronted | src/ywd1278/ax25/codec.py:189-261 | and nothing else is accepted |
| Ax25.ParseInvertsBuild | src/ywd1278/ax25/codec.py:161-261 | a built UI frame parses to its addresses with normalised command bits, PID and info, if and only if the path has at most nine entries; with and without FCS |
| Deframer.FinishFlag | src/ywd1278/phy/bell202_rx.py:261-298 | the per-flag method yields the candidate between two flags exactly when it unstuffs, has whole octets, at least 17 of them, a valid FCS and parses; and opens the next one |
| Deframer.EmitBit | src/ywd1278/phy/bell202_rx.py:300-319 | one decoded bit: shift register, candidate buffer with its 4096-bit limit, flag detection |
| Deframer.AnyStateFlag | src/ywd1278/phy/bell202_rx.py:300-319 | a complete flag brings a receiver in any state into step, with at most one earlier candidate delivered |
| Deframer.LostFlagPoisons | src/ywd1278/phy/bell202_rx.py:261-319 | a candidate that contains a flag damaged in its first bit is never delivered |
| Deframer.BurstDelivered | src/ywd1278/phy/bell202_rx.py:261-340 | from any receiver state one burst yields its frame if deliverable, and nothing else from its second flag on; with one opening flag if and only if the previous tone was the sender's initial one |
| Deframer.ReceiveAllKeepsBounded | src/ywd1278/phy/bell202_rx.py:300-319 | in every state a receiver reaches, the candidate fits the 4096-bit buffer |
| Deframer.ForgettingFindsTail | src/ywd1278/phy/bell202_rx.py:261-319 | a receiver whose candidate is dropped loses at most what that candidate would have completed |
| Deframer.OpensAfresh | src/ywd1278/phy/bell202_rx.py:261-298 | whatever a receiver without a candidate finds opens one period after one of the symbols it was given |
| Deframer.FoundLiesBetweenFlags | src/ywd1278/phy/bell202_rx.py:261-298 | whatever a receiver without a candidate finds lies between two flags among its symbols: its stuffed bits fill the symbols between them, it opens one period after the first and closes where the second begins |
| Deframer.LinkDelivers | src/ywd1278/phy/bell202_rx.py:261-340 | from any receiver state, back-to-back bursts with two or more opening flags are delivered exactly and in order |
| Demodulator.BuildBank | src/ywd1278/phy/bell202_rx.py:161-176 | the constructor's nested loops build every baud rate with every phase, in that order |
| Demodulator.BankEntry | src/ywd1278/phy/bell202_rx.py:161-176 | where each baud rate and phase stands in the bank, its period of 19200/baud samples, its first symbol beginning at the phase, and that there are no other entries |
| Demodulator.StreamingBell202Decoder.constructor | src/ywd1278/phy/bell202_rx.py:147-194 | a fresh decoder is valid with an empty history |
| Demodulator.StreamingBell202Decoder.StoreTransitionPrefix | src/ywd1278/phy/bell202_rx.py:196-199 | one tagged slot of the two transition rings is overwritten |
| Demodulator.StreamingBell202Decoder.TransitionValue | src/ywd1278/phy/bell202_rx.py:201-205 | the tagged lookup hits exactly for the newest 128 prefixes and gives the true number of level changes in them |
| Demodulator.StreamingBell202Decoder.TransitionCount | src/ywd1278/phy/bell202_rx.py:207-216 | the true number of level changes within the symbol where the ring reaches back that far, zero otherwise |
| Demodulator.StreamingBell202Decoder.StoreMetric | src/ywd1278/phy/bell202_rx.py:218-227 | the window register and metric rings keep agreeing with the longer history |
| Demodulator.StreamingBell202Decoder.MetricAt | src/ywd1278/phy/bell202_rx.py:229-233 | the lookup hits exactly within the ring's reach and is the metric of the true twelve samples |
| Demodulator.StreamingBell202Decoder.AcceptFrame | src/ywd1278/phy/bell202_rx.py:242-259 | a repeat within 960 samples is suppressed and keeps the earlier opening; anything else is reported |
| Demodulator.StreamingBell202Decoder.DecideTone | src/ywd1278/phy/bell202_rx.py:321-334 | the decision from the rings is the decision over the full history, whose meaning is Demodulator.ToneLaw |
| Demodulator.ToneLaw | src/ywd1278/phy/bell202_rx.py:321-334 | the decision on the samples: a metric of at least 0.12 gives SPACE and at most -0.12 gives MARK; in between, SPACE if and only if at least three neighbouring sample pairs inside the symbol differ; with the place of the symbol and of its twelve-sample window |
| Demodulator.SoundIsDecided | src/ywd1278/phy/bell202_rx.py:321-334 | samples that sound like a tone in that sense are decided as that tone |
| Demodulator.StreamingBell202Decoder.ClassifyHypothesis | src/ywd1278/phy/bell202_rx.py:321-341 | one due symbol is processed as the direct demodulation does |
| Demodulator.StreamingBell202Decoder.ClassifyDueSymbols | src/ywd1278/phy/bell202_rx.py:343-354 | the heap loop terminates and visits exactly the due hypotheses, in bank order |
| Demodulator.StreamingBell202Decoder.FeedSample | src/ywd1278/phy/bell202_rx.py:356-363 | after each sample the decoder equals the direct demodulation of all samples so far |
| Demodulator.StreamingBell202Decoder.Feed | src/ywd1278/phy/bell202_rx.py:365-374 | for every chunk, and so every split into calls, the state is that of the concatenated history; the new reports are returned ordered by opening sample |
| Demodulator.SlicerOrder | src/ywd1278/phy/bell202_rx.py:365-374 | sample k of a chunk is bit 7 - k mod 8 of its octet k / 8 |
| Demodulator.ByStartSorts | src/ywd1278/phy/bell202_rx.py:365-374 | what a call returns is ordered and is a permutation of the new reports |
| Demodulator.ByStartIsStable | src/ywd1278/phy/bell202_rx.py:365-374 | reports that open at the same sample keep their order |
| Demodulator.HypothesisIsDirect | src/ywd1278/phy/bell202_rx.py:321-363 | each hypothesis has received exactly the symbols whose nominal end lies within the history: none skipped, none repeated |
| Demodulator.OpeningsAreFarApart | src/ywd1278/phy/bell202_rx.py:235-240 | frames opened at least 144 symbols apart are never taken for one occurrence |
| Demodulator.SingleHypothesisKeepsRepeats | src/ywd1278/phy/bell202_rx.py:235-319 | with one timing hypothesis no sample stream makes the decoder discard a frame as a duplicate |
| Reception.AloneIsReceived | src/ywd1278/phy/bell202_rx.py:321-363 | what a hypothesis finds is what a receiver finds in its symbols, each decided from the full history |
| Reception.BankReportsExactly | src/ywd1278/phy/bell202_rx.py:235-374 | for any bank, samples and frame: reported plus suppressed is the total found by all hypotheses; a zone of the history clear of the frame's other openings by more than 960 samples holds a report if and only if some hypothesis finds the frame to open there, at most one if those openings are within 960 samples, and then the earliest opening is the one remembered |
| Reception.RepeatsAreReported | src/ywd1278/phy/bell202_rx.py:235-259 | for any bank, receptions of one frame separated by a gap of more than 960 samples are both reported, each on its own side |
| Reception.HeardIsFound | src/ywd1278/phy/bell202_rx.py:261-340 | a receiver that hears a deliverable burst anywhere finds its frame to open during that burst, whatever came before and after |
| Reception.HeardBurstIsReported | src/ywd1278/phy/bell202_rx.py:139-374 | a deliverable burst that any one hypothesis hears, anywhere in any history, has a report in every zone around it that is clear of the frame's other receptions by more than 960 samples, whatever the other hypotheses decide; with two opening flags, or one and the right tone before it |
| Reception.HeardAtAll | src/ywd1278/phy/bell202_rx.py:139-374 | and its frame is reported in any case |
| Reception.DecoderReports | src/ywd1278/phy/bell202_rx.py:139-374 | the same of the decoder object after any samples in any chunks, with whatever bank it was constructed: a burst heard clear of other receptions of its frame is reported anew |
| Reception.DecoderReportsOnce | src/ywd1278/phy/bell202_rx.py:235-259 | what the object's hypotheses find of one frame within 960 samples, clear of the rest, is reported exactly once |
| Reception.DecoderReportsRepeats | src/ywd1278/phy/bell202_rx.py:235-259 | receptions of one frame that a gap of more than 960 samples separates are all reported by the object, each on its own side |
| Reception.ReportsAreAcceptable | src/ywd1278/phy/bell202_rx.py:261-298 | everything reported has a valid check sequence and parses |
| Reception.ReportsNameTheirHypothesis | src/ywd1278/phy/bell202_rx.py:235-341 | every report is something that one hypothesis found on its own, with that frame, opening and end, under that hypothesis's own rate and phase |
| Reception.SingleHypothesisReports | src/ywd1278/phy/bell202_rx.py:235-374 | with one timing hypothesis the reports are its frames one by one, in order |
| Reception.BurstsAreReportedInOrder | src/ywd1278/phy/bell202_rx.py:139-374 | with one timing hypothesis and tones of back-to-back bursts, the reports are exactly their frames in order |
| SampleReception.PlayedIsHeard | src/ywd1278/phy/bell202_rx.py:321-363 | samples in which each symbol of a burst sounds right, symbol after symbol, are heard as that burst by the hypothesis |
| SampleReception.PlayedBurstIsReported | src/ywd1278/phy/bell202_rx.py:139-374 | from samples to reports: for any bank, if the centred window of each symbol of one hypothesis has the burst's tone with a metric of at least 0.12 (or three level changes), anywhere in any history, the burst is reported in every zone around it clear of its frame's other receptions |
| SampleReception.DecoderHearsSamples | src/ywd1278/phy/bell202_rx.py:139-374 | the same of the decoder object after any samples in any chunks |
| SampleReception.PlayedFrameIsReported | src/ywd1278/phy/bell202_rx.py:139-374 | and the frame of a burst so played is reported in any case |
| KissFraming.Encode | src/ywd1278/kiss/framing.py:35-50 | delimits and escapes the body, or reports a bad port or command |
| KissFraming.Decode | src/ywd1278/kiss/framing.py:53-83 | the loop computes the batch decoding with each of its error cases |
| KissFraming.DecodeInvertsEncode | src/ywd1278/kiss/framing.py:35-83 | every encodable message comes back from its encoding |
| KissFraming.DecodeAcceptsExactly | src/ywd1278/kiss/framing.py:35-83 | a packet decodes to a message if and only if it is the encoding of that message |
| KissFraming.WireLayout | src/ywd1278/kiss/framing.py:35-50 | 0xC0 only at both ends, and between them the escaped octet of port and command, then the escaped frame |
| KissFraming.EscapedOctets | src/ywd1278/kiss/framing.py:42-49 | 0xC0 becomes 0xDB 0xDC, 0xDB becomes 0xDB 0xDD, every other octet stands for itself |
| KissFraming.KISSStreamDecoder.Feed | src/ywd1278/kiss/framing.py:117-153 | one chunk advances the decoder as its specification; the buffer never exceeds the bound |
| KissFraming.FedConcat | src/ywd1278/kiss/framing.py:117-153 | feeding two chunks is feeding their concatenation: chunking does not matter |
| KissFraming.StreamIsBatch | src/ywd1278/kiss/framing.py:86-153 | the messages are those of batch-decoding each FEND-terminated segment, and after a FEND the discard counter has grown by exactly the undeliverable segments |
| KissFraming.NoneLostNoneCountedTwice | src/ywd1278/kiss/framing.py:110-153 | at every FEND of any stream, the non-empty segments are as many as the messages delivered plus the growth of the discard counter |
| KissFraming.EncodedStreamRoundTrip | src/ywd1278/kiss/framing.py:35-153 | concatenated encodings come back in order, exactly those that fit the bound; each other one is counted once |
| Control.Capture | src/ywd1278/kiss/control.py:185-197 | a captured context is the coherent policy of exactly one generation |
| Control.Dispositions | src/ywd1278/kiss/control.py:209-302 | which message gets which answer, one equivalence for each: any TXDELAY or PERSIST octet, any SLOTTIME but zero and only FULLDUPLEX zero set a parameter |
| Control.TNCSessionState.Apply | src/ywd1278/kiss/control.py:209-302 | each message gets one disposition, at most one parameter changed, and exactly the counters of its disposition grow; every message received is accounted for once |
| Control.SnapshotAfterRun | src/ywd1278/kiss/control.py:135-318 | after any messages the snapshot is valid, its generation counts the messages that set a parameter, and TXDELAY, PERSIST and SLOTTIME are the octets of the last such message with command 1, 2 and 3 |
| ChannelAccess.RSSIChannelBusyDetector.Observe | src/ywd1278/tx/channel_busy.py:92-129 | one sample drives the hysteretic detector, or is refused without effect |
| Trials.DetectLaw | src/ywd1278/tx/channel_busy.py:92-129 | after every sample the channel counts as clear if and only if some hold of 250 ms at or above 90 was completed with no sample at or below 83 since, and the hold under way began with the present run of such samples |
| Trials.ShowsLaw | src/ywd1278/tx/channel_busy.py:92-129 | after every sample the state shown is that of the last sample outside the band in between, and the time of the last busy one is remembered |
| ChannelAccess.PersistentCSMA.Observe | src/ywd1278/tx/csma.py:149-244 | one observation drives the p-persistent machine as specified, with its errors |
| ChannelAccess.ShadowChannelAccessAttempt.ObserveRssi | src/ywd1278/tx/channel_access.py:77-117 | detector and CSMA advance together, drawing randomness only for a due trial |
| ChannelAccess.ObserveExplained | src/ywd1278/tx/channel_access.py:77-117 | at every moment the state is explained by the samples; access is granted only after a 250 ms clear hold, then a whole slot without busy, and a trial byte within the parameter |
| ChannelAccess.OnlyCallerErrors | src/ywd1278/tx/channel_access.py:77-117 | the composition never trips the policy's own guards; only bad samples, reversed time or the caller's randomness raise |
| Trials.AccessLaw | src/ywd1278/tx/channel_access.py:77-117 | the whole answer of a waiting attempt from its history of samples and drawn bytes: a trial is drawn if and only if the channel is clear and a slot has passed since it became clear or since the last trial, before the deadline; its byte decides between READY and waiting another slot; otherwise the attempt waits for the channel or the slot, or times out |
| Trials.BusyBetweenTrials | src/ywd1278/tx/csma.py:186-240 | with any parameters under which a trial can fail and two holds and slots fit, there is an attempt that draws, hears busy and draws again |
| AdmissionQueue.KISSDataAdmissionQueue.constructor | src/ywd1278/kiss/tx_path.py:126-153 | an empty queue |
| AdmissionQueue.KISSDataAdmissionQueue.EnqueueFrame | src/ywd1278/kiss/tx_path.py:177-221 | admission with FCS, identifier, deadline and captured context; or the time, frame or capacity error with its counter |
| AdmissionQueue.EnqueueAnswers | src/ywd1278/kiss/tx_path.py:177-221 | one equivalence for each answer of an admission, its counter, and every field of the receipt and of the queued request |
| AdmissionQueue.KISSDataAdmissionQueue.ObserveRssi | src/ywd1278/kiss/tx_path.py:223-337 | one sample advances only the head; the submitter is called exactly when reported, with the head's frame and context |
| AdmissionQueue.ObserveShape | src/ywd1278/kiss/tx_path.py:223-337 | an observation keeps every request or ends the head, as dispatched or failed exactly when it calls the submitter, with the counter of that end, and names the head and its generation |
| AdmissionQueue.ObserveAnswers | src/ywd1278/kiss/tx_path.py:223-258 | exactly when an observation is refused for its time, finds nothing to observe or finds that the head has outlived its deadline, and the time its answer carries |
| QueueRuns.EveryRunOk | src/ywd1278/kiss/tx_path.py:177-337 | the queue invariant holds after every run of enqueue and observe calls |
| QueueRuns.DispatchSafety | src/ywd1278/kiss/tx_path.py:259-337 | every submitter call of every run was preceded by samples of that same head request: a hold of 250 ms at or above 90, then a whole slot, none at or below 83, a trial byte within the captured parameter, strictly before the deadline |
| QueueRuns.SubmissionsAreApart | src/ywd1278/kiss/tx_path.py:259-337 | two submitter calls are at least 250 ms and the later slot apart, and serve different requests in order |
| TrialRuns.TrialsAreApart | src/ywd1278/kiss/tx_path.py:259-337 | over every run, two persistence trials of one request are at least its captured slot apart, at least 250 ms more if the channel was busy in between, and the earlier one failed |
| TrialRuns.AnswerFromHistory | src/ywd1278/kiss/tx_path.py:259-337 | over every run, the answer to the next sample that the head takes, from the samples and bytes of that request: a trial is drawn exactly when due, and the submitter is called exactly when its byte passes |
| TrialRuns.CallsFollowTrials | src/ywd1278/kiss/tx_path.py:259-337 | over every run, a submitter call comes at least one whole slot after every earlier trial of that request |
| QueueRuns.RunConservation | src/ywd1278/kiss/tx_path.py:160-337 | accepted = depth + dispatched + timed out + failed; depth within capacity; consecutive identifiers; non-decreasing deadlines; requests finish in admission order |
| QueueRuns.InnerTimeoutNeedsShortBound | src/ywd1278/kiss/tx_path.py:259-287 | the access policy's own timeout can end a request only if the captured bound is shorter than the queue lifetime |
| QueueRuns.ShortBoundTimesOut | src/ywd1278/kiss/tx_path.py:259-287 | and with any shorter bound there is a run in which it does |
| LockedQueue.LockOrdersTime | src/ywd1278/kiss/sustained.py:96-116 | from a new queue, with any number of threads, any interleaving and any non-negative monotone clock, no call fails for time order |
| LockedQueue.EarlyReadFails | src/ywd1278/kiss/sustained.py:96-116 | reading the clock before taking the lock has a failing run |
| AccessQueue.EnqueueMirrored | src/ywd1278/tx/access_queue.py:175-198 | with default parameters, admission answers and new states of the two queues agree |
| AccessQueue.ObserveMirrored | src/ywd1278/tx/access_queue.py:200-314 | observations of mirrored queues give the same request, state, decision, random draw and outcome |
| AccessQueue.QueuesStayInLockStep | src/ywd1278/tx/access_queue.py:175-314 | over every run from mirrored states the two queues give the same answer to every call, hand the same frames downstream and end in mirrored states |
| AccessQueue.LockStepFromEmpty | src/ywd1278/tx/access_queue.py:128-314 | and so from two new queues |
| TxDelay.PreambleIsTight | src/ywd1278/tx/txdelay.py:56-86 | the preamble is never shorter than requested, overruns by less than one flag, and is one flag only for TXDELAY 0; requested and effective times in seconds |
| TxDelay.PrepareFrame | src/ywd1278/tx/txdelay.py:124-149 | exactly the frames with valid FCS and at most 1920 selectors are prepared, as the packing of their burst |
| TxDelay.DefaultPreambleCapacity | src/ywd1278/tx/txdelay.py:124-149 | at TXDELAY 30 every frame of up to 160 octets fits and none over 192 does |
| TxDelay.HostFrameRoundTrip | src/ywd1278/modem/protocol.py:107-137 | parsing gives a command and payload if and only if building them gives those octets and the command is the expected one, if any |
| TxDelay.PreparedFits | src/ywd1278/modem/protocol.py:226-243 | every prepared burst is accepted as one host request: 0xE0, its own length, 0x58, 0x02, its count least significant octet first, and its selectors; and it fits the receiver's buffer |
| TxDelay.BurstIsReceived | src/ywd1278/tx/txdelay.py:124-149 | a burst within the modem limit delivers exactly its frame to a receiver in any state; the one exception is TXDELAY 0 after a tone other than MARK |
| TxDelay.PreparedIsReceived | src/ywd1278/tx/txdelay.py:124-149 | the same for the packed octets that preparation produced |
| HalfDuplex.PersistentHalfDuplexSubmitter.constructor | src/ywd1278/tx/half_duplex.py:125-151 | a new lifecycle is at rest and not latched |
| HalfDuplex.PersistentHalfDuplexSubmitter.WaitForTxIdle | src/ywd1278/tx/half_duplex.py:247-262 | the calls made and the answer satisfy the law of the wait, each poll is counted, and there are at most ceil(timeout/poll)+1 of them |
| HalfDuplex.WaitMeaning | src/ywd1278/tx/half_duplex.py:247-262 | the wait succeeds if and only if some poll saw RF idle, and ends with the first that did; it fails if and only if a question raised or the clock had reached start + timeout with no poll idle |
| HalfDuplex.PersistentHalfDuplexSubmitter.RestartAndVerifyRx | src/ywd1278/tx/half_duplex.py:264-270 | the calls of a restart, and success exactly if it was accepted and reception is then active |
| HalfDuplex.PersistentHalfDuplexSubmitter.StopAndVerifyRx | src/ywd1278/tx/half_duplex.py:184-203 | the calls of a stop, and success exactly if reception was active, stopping was accepted and reception is then inactive |
| HalfDuplex.StatusOnOctet | src/ywd1278/tx/half_duplex.py:272-301 | active means nothing dropped and flags with low four bits 0x0D; inactive means nothing dropped and the low two bits clear |
| HalfDuplex.PersistentHalfDuplexSubmitter.SubmitFrame | src/ywd1278/tx/half_duplex.py:170-245 | against any modem: refused without a call exactly if latched or the timeout is not positive; otherwise answer, latch and every counter are functions of the calls made, which obey the law of a cycle; counters balance at rest and latched means exactly one unrecovered failure |
| HalfDuplex.CycleOutcomes | src/ywd1278/tx/half_duplex.py:182-245 | one equivalence for each outcome of a cycle: a normal return if and only if reception was active, stopped and inactive, the frame was accepted, RF was seen idle in time and reception was restarted and active; and the latch exactly if no hand-over was made or reception not brought back |
| TransmitStack.StepOk | src/ywd1278/tx/broker.py:302-347 | every step of consumer, producers, router and broker workers keeps the transmit invariant |
| TransmitStack.EveryRunOk | src/ywd1278/tx/broker.py:215-347 | the invariant holds over every run and interleaving |
| TransmitStack.AtMostOneBurst | src/ywd1278/tx/broker.py:302-347 | no two bursts serve the same request, and each follows a zero-pending status of its own job |
| TransmitStack.EveryBurstHeardClear | src/ywd1278/tx/contextual.py:89-219 | the request of every burst of every run, also one sent after its caller gave up, has a submitter call justified by its samples: full clear hold, whole slot, no busy sample, passing trial, before the deadline |
| TransmitStack.DispatchedMeansOneFaithfulBurst | src/ywd1278/tx/contextual.py:89-219 | a dispatched request caused a burst that unpacks to the serialization of its body with FCS and the preamble of the TXDELAY captured for it, whatever updates came later |
| TransmitStack.DispatchedIsReceived | src/ywd1278/tx/contextual.py:163-219 | that burst delivers exactly the admitted body with FCS to a receiver in any state, for every captured TXDELAY of at least one |
| TransmitWindow.BurstsStayInTheirWindow | src/ywd1278/tx/half_duplex.py:170-245 | in every run in which no wait runs out on an unfinished job, every burst is keyed while its own submission waits with reception stopped |
| TransmitWindow.AbandonedJobIsSentOutside | src/ywd1278/tx/broker.py:263-268 | whenever a wait runs out on an unfinished job, that job can still be transmitted after reception was restarted and the submission is over |
| TransmitWindow.OnlyAbandoningOpensTheWindow | src/ywd1278/tx/broker.py:263-268 | where every unfinished job is awaited, a step ends that if and only if it is a wait running out on an unfinished job |
| TransmitWindow.SafeIffWindowed | src/ywd1278/tx/broker.py:263-347 | from any state, no continuation without abandoned jobs keys the transmitter outside its window if and only if every unfinished job is the one waited for |
| TransmitWindow.QuietRunWaits | src/ywd1278/kiss/tx_path.py:259-308 | every body that parses and can be prepared reaches the broker on a quiet channel if it lives longer than the hold and one slot |
| TransmitWindow.WindowCanBeMissed | src/ywd1278/tx/broker.py:263-347 | and so for every such body a run from the start keys the transmitter while reception is running |
| Dispatch.DispatchedIff | src/ywd1278/tx/contextual.py:89-219 | over every run and interleaving, when a submission ends its request is reported once, and as dispatched if and only if the modem acknowledged its burst, the consumer was still waiting when the broker answered, and reception was restored |
| Dispatch.OnlyGivingUp | src/ywd1278/tx/broker.py:263-268 | a submission counts as given up exactly from the step that stops waiting until it ends |
| Dispatch.HealthyDispatches | src/ywd1278/tx/broker.py:263-347 | from every reachable wait for an unfinished job, a modem that does what it is asked sends exactly the prepared burst, once, and the request is dispatched |
| Dispatch.QuietRunDispatches | src/ywd1278/kiss/tx_path.py:259-337 | every body that parses and can be prepared is dispatched, with one burst, by the run in which the channel is quiet and nothing fails |
| Dispatch.JobsIff | src/ywd1278/tx/broker.py:215-261 | exactly when the broker is given a job, what the job is, and that the consumer then waits for it |
| Dispatch.TurnedAwayIsNeverSent | src/ywd1278/tx/broker.py:302-347 | a job that the worker turns away, because the broker is stopping or the modem raised or still holds selectors, is never transmitted in any continuation |
| Dispatch.LatchesIff | src/ywd1278/tx/half_duplex.py:170-245 | the lifecycle latches when reception cannot be handed off or brought back and at no other step |
| Dispatch.LatchedSubmitsNothing | src/ywd1278/tx/half_duplex.py:170-174 | from the latch on no continuation gives the broker a job |
| Dispatch.AdmittedAsCaptured | src/ywd1278/kiss/tx_backend.py:106-114 | over every run and interleaving, a request is admitted with the parameters in force when its producer captured them |
| Monitor.TXRequestTracker.AddReceipt | src/ywdtnc/monitor_tx.py:31-43 | the record is appended and filed under its identifier |
| Monitor.TXRequestTracker.BeginObservation | src/ywdtnc/monitor_tx.py:45-58 | the first pending record becomes current with the RSSI value; an absent record raises |
| Monitor.TXRequestTracker.CurrentRecord | src/ywdtnc/monitor_tx.py:60-62 | the current record, if any |
| Monitor.TXRequestTracker.ClearCurrent | src/ywdtnc/monitor_tx.py:64-66 | nothing is current |
| Monitor.TXRequestTracker.FinishRequest | src/ywdtnc/monitor_tx.py:68-78 | the identifier leaves the pending list, the records and the current slot |
| Monitor.MonitoredStack.EnqueueFrame | src/ywdtnc/monitor_tx.py:111-115 | the wrapped queue's answer, with tracking and a queued event exactly on success |
| Monitor.MonitoredStack.ObserveRssi | src/ywdtnc/monitor_tx.py:117-133 | the wrapped queue's answer, with the events and tracking that belong to it |
| Monitor.MonitoredStack.RouterSubmit | src/ywdtnc/monitor_tx.py:146-154 | a dispatched event exactly when the router accepted |
| Monitor.MonitoredStack.LifecycleSubmit | src/ywdtnc/monitor_tx.py:171-180 | channel_clear first; then failed or complete last |
| Monitor.TrackerMirrorsQueue | src/ywdtnc/monitor_tx.py:24-133 | after any run the tracker lists exactly the queue's requests in order, leaks no record, has none current, and never raises |
| Monitor.LifecycleOfEveryRequest | src/ywdtnc/monitor_tx.py:97-180 | a waiting request has published queued only, a finished one exactly one complete word, that of its terminal state, others nothing; all events of a request carry the same fields |
| Monitor.EveryInstantIsAPrefix | src/ywdtnc/monitor_tx.py:97-180 | at every instant a request's events are a prefix of queued (timeout, or channel_clear (failed, or dispatched (complete or failed))) |
| MonitorRaces.TrackerIsExact | src/ywdtnc/monitor_tx.py:31-133 | with any number of producers, and tracking and the parts of an observation interleaved with admission: between observations the tracker and the producers hold exactly the queue's requests, each once and with one record, if and only if the tracker was never told to finish a request that was not yet tracked |
| MonitorRaces.TrackerIsInOrder | src/ywdtnc/monitor_tx.py:31-58 | in such runs, if producers also track in admission order, the tracker lists the queue's oldest requests in order, so an observation is labelled with the queue's head |
| MonitorRaces.OutOfTurnBreaksOrder | src/ywdtnc/monitor_tx.py:31-58 | and a producer that tracks out of turn puts the tracker out of order at once |
| MonitorRaces.OvertakenLeaks | src/ywdtnc/monitor_tx.py:68-133 | a request whose finish came before its tracking is never got rid of, in any continuation: it stays with its producer, is in the tracker for ever from the moment it is tracked, and the tracker never agrees with the queue again |
| MonitorRaces.LeakedHeadLabelsEverything | src/ywdtnc/monitor_tx.py:45-78 | while a leaked request heads the tracker, which is then for ever, every later event but those of admissions carries its fields, whichever request it concerns |
| MonitorRaces.LateTrackingLeaks | src/ywdtnc/monitor_tx.py:97-133 | for every parseable body there is a run from a new queue that leaks a request at the head of the tracker |
| Ingress.TNCTransmitBackend.RejectClientMessage | src/ywd1278/kiss/tx_backend.py:90-139 | port-0 DATA is admitted under the parameters in force or rejected into exactly one counter; every other message goes to the control state |
| Ingress.CountersAgree | src/ywd1278/kiss/tx_backend.py:90-139 | with any number of clients interleaved, received = in progress + one counter each, and with no call in progress the ingress counters equal the queue's |
| Ingress.OnlyTheLifetimeExpires | src/ywd1278/kiss/tx_backend.py:106-114 | in every run through the backend a request expires only at its admission deadline, never by the access policy's own timeout |
| Runtime.SustainedTNCRuntime.constructor | src/ywd1278/service/tnc_runtime.py:86-138 | a runtime with a fresh decoder |
| Runtime.SustainedTNCRuntime.Consume | src/ywd1278/service/tnc_runtime.py:299-304 | a chunk is fed to the decoder in use, and each report it completes is published once; that never raises |
| Runtime.SustainedTNCRuntime.PublishAll | src/ywd1278/service/tnc_runtime.py:299-317 | all reports of a chunk are published in order; none can fail to parse |
| Runtime.SustainedTNCRuntime.DrainRxFifo | src/ywd1278/service/tnc_runtime.py:274-297 | at most four reads, all fed in order, ended only by a read that is not full, the fourth, one that raises or a stop request; an uninterrupted pass takes every byte waiting at its start if and only if there were no more than four maximal reads of them |
| Runtime.WholeFifoNeedsLargeReads | src/ywd1278/service/tnc_runtime.py:274-297 | with reads of 128 or more octets a pass takes a whole 512-byte FIFO; with fewer it cannot take a full one |
| Runtime.SustainedTNCRuntime.CheckStatus | src/ywd1278/service/tnc_runtime.py:319-332 | one status read; anything but flags 0x0D and no dropped bytes ends the worker |
| Runtime.SustainedTNCRuntime.React | src/ywd1278/service/tnc_runtime.py:241-264 | a dispatched transmission replaces the decoder, is followed by a proof of active reception and puts the next check a full interval after a later clock reading; a failed one ends the worker; an expired request is counted |
| Runtime.SustainedTNCRuntime.ServeQueue | src/ywd1278/service/tnc_runtime.py:234-264 | one RSSI value, then the queue advanced once with that value and the time of the round, then a status check exactly if that transmitted; cut short only by what raises |
| Runtime.SustainedTNCRuntime.Round | src/ywd1278/service/tnc_runtime.py:220-264 | the trace of one round: one pass of reads, a status check if and only if it is due, the queue's turn if and only if its depth is positive, nothing after a step that raised; and when the next check is due |
| Runtime.SustainedTNCRuntime.Run | src/ywd1278/service/tnc_runtime.py:217-272 | against any modem, queue and stop request: the trace is exactly a sequence of such rounds, each taking over when the next check is due, one look at the stop request before each round and each read, going on until the request is found set or a round fails; the worker failed if and only if its last step was fatal; the decoder has been fed exactly what was read since the last transmission and each of its reports was published once |
| Runtime.SustainedTNCRuntime.Turn | src/ywd1278/service/tnc_runtime.py:220-272 | one round and one look at the stop request; a round that raises is recorded and stops the worker |
| Runtime.SidesApart | src/ywd1278/service/tnc_runtime.py:251-260 | no decoder instance is fed bytes from both sides of a transmission |
| Runtime.SameSideSameDecoder | src/ywd1278/service/tnc_runtime.py:217-304 | bytes read with no transmission between them share one decoder |

## Left out

- Serial ports, termios, TCP servers, thread start and stop, process supervision: input and output plumbing.
- The modem owner's internal queueing and its wait timeouts: its calls are single steps that may fail.
- The sine and cosine correlation values: the metric of a twelve-sample pattern is an arbitrary function.
- Floating-point rounding: periods, deadlines and clock readings are exact reals.
- Demodulator.StreamingBell202Decoder.constructor: requires baud rates between 160 and 1476 and non-negative phases, because only then does a symbol fit the 128-slot rings; the source checks only for positive rates, and its own bank is 1196 to 1204.
- Reception.BankReportsExactly: where openings of one frame follow one another within 960 samples over a longer stretch, it states that there is a report, not how many; and not in which order different hypotheses report, which is stated for one hypothesis.
- The binary heap's array layout: the schedule is a set from which the least entry is taken.
- Counters kept only for statistics (flags seen, largest buffer, metric windows, status checks, RSSI samples).
- AccessQueue.QueuesStayInLockStep: the simpler queue is modelled on values only, as the other side of the simulation; its update in place is not captured.
- TransmitStack.StepOk: the router, the armed-context slot and the broker are one machine of interleaved steps on values, in which workers may take jobs in any order; the broker's first-in first-out order and its thread objects are not captured.
- Monitor.MonitoredStack.ObserveRssi: the wrapped queue is held as its abstract value, and the outcome of a submission is chosen before it begins.
- Monitor.LifecycleOfEveryRequest: holds for serialised calls; the wrappers share no lock with the queue, and what interleaved callers do to the tracker and to the labels of events is stated in MonitorRaces.
- Control.TNCSessionState.Apply: the count of frames discarded by the stream decoder, which the TCP server adds to the malformed ones, is not modelled.
- Ax25.ParseInvertsBuild: upper-casing is modelled for ASCII letters only, and textual parsing of an address is not modelled.
- HalfDuplex.PersistentHalfDuplexSubmitter.WaitForTxIdle: the poll bound assumes that sleeping lets at least the requested time pass.
- Runtime.SustainedTNCRuntime.DrainRxFifo: reads are taken to return what is available up to their maximum.
- Runtime.SustainedTNCRuntime.Run: covers every finite run, by an arbitrary number of times the stop request is found unset; start-up checks and the delivery of published frames to subscribers are not modelled.
- Constructor argument checks of the queues, parameters and decoders are preconditions.
- SHA-256 receipts, JSON events, packet logs, timestamps and error texts.
- AGW framing, the web interface, history storage, configuration, firmware and installation tools, and the receive-only runtimes: easier than what is modelled, or user interface.
