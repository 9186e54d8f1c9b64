# Protocol, coding and scheduling cores of wfweb, verified

A Dafny 4.11 model of seven cores of the radio web server, with proofs of what they are for.
`dafny verify dfyconfig.toml` checks everything.

* **YAPP file transfer** over a connected-mode link (`YappFrames`, `YappSession`, `YappPump`,
  `YappLink`, `YappSafety`, `YappHistory`, `YappCompletes`, `YappAcks`, `YappRequests`, `YappAborts`,
  `YappTimers`, `YappText`, `YappNotices`). `YappSession` holds the operations twice: as functions on the value of a session, and
  as the methods of `TerminalSession`, which change its fields in place and are proved to do what the
  functions say. The link is a channel that keeps bytes in order and may cut them anywhere. The main
  results are that a file reported as sent has been delivered by the peer, name and bytes, once and in
  order, in every run without aborts and timer expiries; exactly when a transfer can still complete,
  from its request on; that nothing the framer is given ever gets lost between frames and text, and a
  terminal shows what its peer typed, in order, whatever frames come in between; and exactly when a
  timer ends a transfer that did not set it, sent or received; and that the last notice always tells the
  user what transfer is on.
* **RADE text** at the end of an over (`RadeCharset`, `RadeField`, `RadeCode`, `RadeGraph`,
  `RadeDecoder`, `RadeDecoderLaws`, `RadeTables`, `RadePhi`, `RadeInterleaver`, `RadeDemod`,
  `RadeText`, `RadeRange`, `RadeLoopback`, `RadeCorrection`, `RadeOneBad`, `RadeWeakSymbol`,
  `RadePolynomial`). Floating-point numbers are reals. Encoder, graph, decoder and
  interleaver are proved for tables and parameters of any size; `RadeTables` shows that the actual
  tables meet what the theorems ask for. The main results are the loop from string to string, and what
  the decoder corrects: one ratio of the wrong sign among sure ones, in any place of any codeword.
* **The command scheduler** and its value cache (`CommandQueue`, `CachingQueue`,
  `CachingQueueLaws`, `RigCache`, `RigHistory`). Qt 5's QMultiMap is a sequence in iteration order. The main
  results are bounded waiting for every level, first in first out within a level, conservation of
  recurring commands, and what cache, rig state and answers are after any run, read off its events.
* **The reception reporter** (`Ipfix`, `PskReporter`, `SpotReporter`, `SpotEvents`, `SpotBacklog`): IPFIX
  packets as RFC 5101 has them, read back by a decoder that only knows templates, and the account of
  every reception, from the event to what a collector reads, and of every sequence number over whole
  runs.
* **The Hilbert transformer** of the RADE receiver (`HilbertFir`), **APRS positions**
  (`AprsPosition`, `AprsReports`) and **the packet modem's transmit queue** (`CsmaQueue`).

`Arithmetic`, `Bytes` and `Options` are shared helpers. `QtText` holds what is used of QString: blanks,
Latin-1, decimal numbers, and the place markers of `arg()`.

## What the proofs found

* `/` and `0` have the same six-bit code (`RadeCharset.RecoveredIffNoSlash`): a text survives the
  RADE codec exactly when it has no slash before its end.
* A bit whose ratio has the wrong sign, but is weak, comes back in the second iteration with all checks
  even (`RadeOneBad.OneBadOutcome`, `RadeWeakSymbol.HraCorrects`). The last parity bit takes part in one
  check only: the decoder decides it right but keeps that check odd through all hundred iterations, so
  55 of 56 are even in the end, which the error estimate lets through (`RadeWeakSymbol.EnoughChecksIff`).
* The scheduler's guard against a second recurring command on a level looks at the first entry it
  finds, so it works exactly when the command does not also recur on a lower-numbered level
  (`CachingQueueLaws.DuplicateRefusedIff`; `CachingQueueLaws.DuplicateReached` is such a run). The
  comment at src/cachingqueue.cpp:184 promises more; the model follows the code. changePriority has no
  guard, and makes a second recurrence in the same case (`CachingQueueLaws.MoveDuplicatesIff`,
  `CachingQueueLaws.MoveDuplicates`).
* compare() compares a `short` with itself and does not know some types; the cache then keeps its
  first value for good (`RigCache.FollowsIffCompared`).
* An acknowledgement counts exactly when the YAPP sender has counted as many bursts as it planned
  frames (`YappAcks.AckCountsIff`). A frame's own burst is counted before the peer can hear it, and
  then none is ever ignored, and every transfer under way, or asked of a peer that holds the request
  or will be free when it comes, can complete (`YappAcks.PacedIgnoresNothing`,
  `YappRequests.PacedCompletes`). But a burst is credited to the first session found sending
  (src/webserver.cpp:5159-5166), which with several sessions may be another one; a sender that is
  behind then ignores the acknowledgement, and nothing but its timer ends the transfer the peer has
  already delivered (`YappAcks.LostForGood`, `YappAcks.ReportableIff`, `YappAcks.EarlyAckIsLost`).
* A request that finds the peer busy with a transfer of its own is refused, so a transfer can still
  complete exactly when the peer holds its request, or will be free by the time it comes, or, once
  granted, no acknowledgement was ignored (`YappRequests.CompletesIff`).
* The 60-second timers test only the phase, not the transfer. So a timer ends one that did not set it
  in two cases (`YappTimers.EndsOtherIff`): the timer of an offer that was refused gives up the next
  one, whose own is still running, when that is waiting too (`YappTimers.RefusedOffersTimerStrikes`);
  and a header that arrives in a wait turns the offer into a received transfer in the same phase
  (src/webserver.cpp:4845-4864), which the offer's timer then ends (`YappTimers.TakenOverIff`,
  `YappTimers.CrossedHeaderStruck`). Runs that keep clear of both are safe, and all others are not
  (`YappTimers.SpacedNeverCutShort`, `YappTimers.BreachIsCutShort`).
* A receiver that aborts right after it accepted sends CN behind its RR. The RR starts the sender all
  the same, and what it sends before it reads the CN finds the receiver idle: the file is handed over
  if all of it was out by then, and else left open with nothing to end it, while the sender is idle
  (`YappAborts.StaleGrant`).
* The header of a YAPP file is understood exactly when its body fits the one length byte
  (`YappFrames.HeaderUnderstoodIffShort`).
* An abort with every frame already queued is not acted on by the pump
  (`YappPump.AbortActsIffFramesRemain`).
* An IPFIX packet announces its own length exactly when that fits sixteen bits
  (`PskReporter.LengthRightIffFits`). A longer one is never written, so from 5459 waiting spots on, or
  fewer long ones, none leaves and all that follow stay behind them, until a disconnect drops them all
  (`SpotBacklog.BacklogStays`, `SpotBacklog.BacklogDropped`, `SpotBacklog.ManyAreTooLarge`).
* The APRS parser lets a bad character of a field through after one that is one to nine
  (`AprsPosition.TwoAcceptedIff`, `AprsPosition.ThreeAcceptedIff`, `AprsPosition.AcceptedIff`): a
  report from 4x degrees north is accepted as one from 39 (`AprsPosition.LettersSlipThrough`).
* An APRS report with a per cent sign as symbol table from below 110 degrees of longitude, where it and
  the digits that follow it are taken for a place marker, is not accepted by the parser
  (`AprsPosition.BuiltIsAcceptedIff`, `AprsPosition.PercentIsLost`). Any other brings back symbols and
  comment as given exactly when they exist in Latin-1 (`AprsPosition.RecoveredIff`,
  `AprsPosition.EuroIsLost`).
* The transmit queue takes every frame of 15 bytes for a supervisory one. SABM, DISC, UA and DM without
  digipeaters are as long, and are lost when a later 15-byte frame with the same 14 bytes in front,
  addresses and command bits, is queued before they are keyed (`CsmaQueue.LostIff`): they might as well
  not have been asked for (`CsmaQueue.AsIfNeverAsked`). A SABM still waiting for the channel when the
  user gives the connection up is never sent, only the DISC (`CsmaQueue.ConnectLost`). The comment at
  src/direwolfprocessor.cpp:353-358 means supervisory frames only; the model follows the code.

## Model

| member | source | states |
|---|---|---|
| YappFrames.FeedEncoded | src/webserver.cpp:4628-4731 | the parser, between two frames, reads any well-formed frame as itself and nothing else, and is between two frames again; a DT length of 0 means 256 and a CN may be empty |
| YappFrames.ChunksDoNotMatter | src/webserver.cpp:4628-4731 | where the link cuts the stream changes neither what is dispatched nor where the parser ends |
| YappFrames.FramesAndTextSurviveChunking | src/webserver.cpp:4579-4731 | any frames mixed with text free of lead bytes, cut anywhere, give exactly those frames and that text, in order |
| YappFrames.HeaderUnderstoodIffShort | src/webserver.cpp:4587-4602 | a built header is read back exactly when its body is at most 255 bytes |
| YappFrames.FeedLossless | src/webserver.cpp:4628-4731 | on any bytes at all, what came out and what is held back put together are the bytes that went in |
| YappFrames.ParseInjective | src/webserver.cpp:4628-4731 | two inputs that parse alike are the same input |
| YappFrames.CancelUnderstood | src/webserver.cpp:4616-4626 | a cancel is read back for every reason, of which the first 255 bytes arrive |
| YappFrames.DataUnderstood | src/webserver.cpp:4604-4614 | so is every data block of 1 to 256 bytes |
| YappFrames.SignalsUnderstood | src/webserver.cpp:4579-4585 | and each of the seven signals |
| YappFrames.FramesOnWire | src/webserver.cpp:4579-4626 | every frame byte for byte |
| YappSession.HeaderRoundTrip | src/webserver.cpp:4587-4602 | the receiver's cut at the NULs and its toLongLong recover the name and size the sender wrote |
| YappSession.ToLongLongIs | src/webserver.cpp:4851 | sizes of 64 bits are read with or without a sign, larger ones as nothing |
| YappSession.TerminalSession.PumpNextFrame | src/webserver.cpp:5126-5157 | hands the next planned frame to the link, or CN and the end of the transfer when an abort is pending |
| YappSession.TerminalSession.AppendDataFrames | src/webserver.cpp:5102-5104 | the loop over the payload appends its DT frames, cut to the chunk size, in order |
| YappSession.TerminalSession.PlanFrames | src/webserver.cpp:5090-5105 | the list is a header, the data cut to the clamped packet length, an end |
| YappSession.TerminalSession.BeginDataPhase | src/webserver.cpp:5080-5124 | moves to the data phase: plan made, counters reset, user told, first frame out |
| YappSession.TerminalSession.HandleFrame | src/webserver.cpp:4776-4977 | every kind of frame does to the session what the frame function says, ignored ones nothing |
| YappSession.TerminalSession.FeedIncoming | src/webserver.cpp:4628-4731 | the byte loop over a chunk is the one-byte transition repeated |
| YappSession.TerminalSession.FeedByte | src/webserver.cpp:4634-4730 | one byte moves the parser and, when it completes a frame, handles it |
| YappSession.TerminalSession.FeedAckSub | src/webserver.cpp:4681-4693 | the byte after ACK tells RR, RF, AF, AT and CA apart, or is swallowed with it |
| YappSession.TerminalSession.FeedBodyByte | src/webserver.cpp:4705-4728 | length and body bytes of HD, DT and CN |
| YappSession.TerminalSession.FinishFrame | src/webserver.cpp:4711-4727 | a complete body is handled with the parser back between two frames |
| YappSession.TerminalSession.FileSend | src/webserver.cpp:2355-2372 | sends SI and waits for RR, unless name or data are empty, the link is down or a transfer is on |
| YappSession.TerminalSession.XferAccept | src/webserver.cpp:2378-2386 | answers a pending offer with RR, and nothing else |
| YappSession.TerminalSession.XferReject | src/webserver.cpp:2387-2400 | answers a pending offer with CN and ends the transfer |
| YappSession.TerminalSession.AbortSend | src/webserver.cpp:5168-5193 | flags a sender, ends a receiver |
| YappSession.TerminalSession.PacketTxReady | src/webserver.cpp:4031-4073 | one burst: count, progress, then the next frame or the wait for AF |
| YappSession.TerminalSession.TimerExpired | src/webserver.cpp:4058-4069 | a timer ends whatever transfer is on when that is in the phase the timer was set for, whichever transfer set it |
| YappPump.PumpRun | src/webserver.cpp:4031-4072 | after k bursts exactly the first k + 1 planned frames are on the link, planned - sent - 1 are left, and progress is below the total until the last burst, which makes it equal |
| YappPump.ProgressMonotone | src/webserver.cpp:4031-4037 | progress never falls |
| YappPump.PlanCarriesFile | src/webserver.cpp:5090-5105 | between header and end every data frame but the last is exactly as long as the packet length, taken as 8 below 8 and as 256 above 256; none is empty, and the payloads are the file |
| YappPump.AbortActsIffFramesRemain | src/webserver.cpp:5133-5146 | an abort is acted on at the next burst exactly when a frame is left to send |
| YappLink.QueuedPlan | src/webserver.cpp:5090-5105 | the planned frames decode to the header, data that add up to the file, and the end |
| YappSafety.HandleKeeps | src/webserver.cpp:4776-4977 | handling any frame keeps the invariant of the two stations |
| YappSafety.DeliverKeeps | src/webserver.cpp:4628-4731 | so does delivering any number of bytes |
| YappSafety.OfferKeeps | src/webserver.cpp:4979-5025 | so does an offer, simultaneous ones included |
| YappSafety.AcceptKeeps | src/webserver.cpp:2378-2386 | so does an acceptance |
| YappSafety.RejectKeeps | src/webserver.cpp:2387-2400 | so does a rejection |
| YappSafety.BurstKeeps | src/webserver.cpp:4031-4073 | so does a burst of the pump |
| YappSafety.RunKeeps | src/webserver.cpp:4776-5157 | so does every run of offers, answers, bursts, text and deliveries |
| YappSafety.ReportedFilesWereDelivered | src/webserver.cpp:4776-4977 | in every run the files a station reported as sent are exactly those the peer delivered, names and bytes, in order and once each, but for at most one more that is under way |
| YappHistory.ReportedWereOffered | src/webserver.cpp:4979-5025 | and they are files that station's user offered, in that order |
| YappCompletes.TransferCompletes | src/webserver.cpp:4776-5157 | every file that can be announced has a run that delivers it, reports it and leaves both stations idle |
| YappCompletes.PlanReceived | src/webserver.cpp:4776-4977 | a receiver that accepted turns the planned frames into the file, RF and AF |
| YappAcks.AckCountsIff | src/webserver.cpp:4823-4843 | an AF read while sending reports the file exactly when as many bursts were counted as frames planned, and is otherwise only ignored |
| YappAcks.LostForGood | src/webserver.cpp:4823-4843 | after an ignored AF no continuation reports the file or ends the transfer; the peer has delivered it |
| YappAcks.ReportableIff | src/webserver.cpp:4031-4073 | in every run, a file being sent can still be reported exactly when no AF of it was ignored |
| YappAcks.PacedIgnoresNothing | src/webserver.cpp:4031-4073 | when no planned frame reaches the peer before a burst was counted for it, no AF is ever ignored |
| YappAcks.SenderCompletes | src/webserver.cpp:4776-5157 | whatever came before, a sender that ignored no AF has a continuation that delivers and reports the file |
| YappAcks.MirrorRun | src/webserver.cpp:4776-5157 | exchanging the stations in a run exchanges them in its outcome, so all this holds of both |
| YappAcks.EarlyAckIsLost | src/webserver.cpp:5159-5166 | for every file there is an unpaced run whose sender has ignored the AF, so that the file delivered can no longer be reported |
| YappRequests.AskerCompletes | src/webserver.cpp:4776-5157 | so has one that was only asked for, unless its request was refused or finds the peer busy |
| YappRequests.StaysHopeless | src/webserver.cpp:4776-4817 | and with such a request no continuation of that transfer reports it |
| YappRequests.CompletesIff | src/webserver.cpp:4776-5157 | so, in every run, a transfer that is on can still be reported exactly when its request is held, granted or will be let in, and after that no AF was ignored |
| YappRequests.PacedCompletes | src/webserver.cpp:4776-5157 | and in paced runs every transfer under way or not doomed has a paced continuation that completes it |
| YappAborts.StaleGrant | src/webserver.cpp:5168-5194 | for every file and every number of bursts before the sender reads the CN of a receiver that accepted and aborted: the sender is idle, and the receiver has the whole file if all of it was out, else the blocks that were, in a file left open |
| YappTimers.OwnTimerPending | src/webserver.cpp:5012-5025 | in every run a transfer being sent that waits for RR or AF has its own timer pending, and timers are due in the order of their transfers |
| YappTimers.EndsOtherIff | src/webserver.cpp:4058-4069 | a due timer ends a transfer that did not set it exactly when one being received, or sent later, is in its phase; a later one's own timer is then still pending |
| YappTimers.WaitEndedByOwnIff | src/webserver.cpp:4058-4069 | at any point of any run, if only time passes a wait is ended by the first timer set for its phase, its own exactly when the transfer is being sent and no earlier one's is pending |
| YappTimers.TakenOverIff | src/webserver.cpp:4845-4864 | a frame turns a waiting offer into a received transfer in the same phase exactly when it is a header with a name |
| YappTimers.SpacedNeverCutShort | src/webserver.cpp:5012-5025 | if waits begin only when no timer for them is pending and none is taken over, no timer ever ends a transfer that did not set it |
| YappTimers.BreachIsCutShort | src/webserver.cpp:5012-5025 | and wherever a run departs from that, it leaves a wait that is ended by another transfer's timer if only time passes |
| YappTimers.CrossedHeaderStruck | src/webserver.cpp:4845-4864 | for any file and header: an offer made while the peer's header is on its way becomes a received transfer that the offer's timer ends |
| YappTimers.RefusedOffersTimerStrikes | src/webserver.cpp:5014-5024 | any second file offered within a minute of a refused first one is given up when the first one's minute is over |
| YappTimers.GivenUpAfterAMinute | src/webserver.cpp:5012-5025 | an offer nobody answers is given up when 60000 ms are over, and not before |
| YappText.TextShown | src/webserver.cpp:4661-4668 | whatever state a session is in and whatever comes in, its text grows by the bytes the framer takes for no frame, in order |
| YappText.TextsShown | src/webserver.cpp:4628-4731 | frames and text in any mixture, cut anywhere, show exactly the texts, in order |
| YappText.TypedIsShown | src/webserver.cpp:4628-4731 | in every run each station has shown what its peer typed but for what is on the channel: no offer, answer, data or acknowledgement adds to it or takes from it |
| YappText.TextArrives | src/webserver.cpp:4628-4731 | so what it shows is the beginning of what the peer typed, and all of it once the channel is empty |
| YappNotices.NoticesTell | src/webserver.cpp:4776-5193 | in every run of one session, aborts and timers included, the last notice shows the transfer that is on, with name and size, whether one being sent still waits for an answer and how much of one being received has come, or that none is on; a file being sent is the one offered and not empty; and a good end follows each reported file and nothing else |
| YappNotices.CancelDiscards | src/webserver.cpp:4949-4975 | what was received is gone when a cancel is read in a transfer, or the receiver aborts: no file is delivered before another header, whatever frames come |
| RadePhi.PhiAntitone | src/rade_text.c:116-222 | phi0 never rises and stays within 0 and 10, on every input |
| RadePhi.PhiIsItsOwnInverse | src/rade_text.c:116-222 | log((e^x + 1) / (e^x - 1)) is its own inverse, and the table is up to a quarter below 5 and a half below 10, where it ends |
| RadePhi.TableSteps | src/rade_text.c:116-222 | the table falls like 2 e^-x: by e^(1/16) and e^(1/2) a step where it is small, and by log 2 when the argument is doubled where it is large |
| RadeCharset.CallsignToOta | src/rade_text.c:534-545 | writes the codes of at most maxLen characters and a NUL, and nothing else |
| RadeCharset.OtaToCallsign | src/rade_text.c:547-557 | gives the characters of the codes up to a zero |
| RadeCharset.CharsOfCodes | src/rade_text.c:534-557 | decoding the codes of a string gives its supported characters, upper-cased, zeros for slashes |
| RadeCharset.SupportedIff | src/rade_text.c:522-545 | which characters have a code, and that only the two cases of a letter, and slash and zero, share one |
| RadeCharset.RecoveredIffNoSlash | src/rade_text.c:538-539 | so the string is recovered exactly when it has no slash |
| RadeCharset.Crc8 | src/rade_text.c:559-569 | computes the CRC of the codes up to a zero |
| RadeCharset.OneChangeDetected | src/rade_text.c:559-569 | changing exactly one code, in a string of any length, always changes the CRC |
| RadePolynomial.CrcDivides | src/rade_text.c:559-569 | a byte is the CRC of a string of codes exactly when their bits and its are the coefficients of a multiple of x^8 + x^4 + x^3 + x^2 + 1 over GF(2) |
| RadeCharset.PaddingIgnored | src/rade_text.c:601-603 | the CRC over the padded field is the CRC over the codes |
| RadeField.BuildField | src/rade_text.c:594-603 | the field is the CRC, the codes of at most eight characters, zeros |
| RadeField.FieldExample | src/rade_text.c:534-603 | the codes of K1ABC are 30, 11, 20, 21 and 22, with zeros behind |
| RadeField.PackInfo | src/rade_text.c:605-621 | the 56 information bits are the CRC's, then six of each code, low bit first |
| RadeField.MasksDouble | src/rade_text.c:605-621 | bit k of a byte weighs 2^k |
| RadeField.Unpack | src/rade_text.c:689-702 | sets the bits of the field one by one to what the word spells |
| RadeField.FieldFromBits | src/rade_text.c:689-702 | that field has six-bit codes and exactly the word's information bits |
| RadeField.BitsDetermineField | src/rade_text.c:605-621 | different fields have different bits |
| RadeCode.LdpcEncode | src/rade_text.c:229-244 | fills in the accumulated parity bits |
| RadeCode.EncodedIffCodeword | src/rade_text.c:229-293 | for any tables, a word satisfies every check, the first included, exactly when its parity half is the encoder's |
| RadeGraph.InitNodes | src/rade_text.c:257-348 | builds the check and variable nodes the graph functions describe |
| RadeGraph.GraphIsLinked | src/rade_text.c:276-347 | with transposed tables without repeats, sockets on the two sides are mutual inverses |
| RadeGraph.NeighbourIffCheck | src/rade_text.c:276-320 | a variable is among a check's neighbours exactly when the check is among the variable's |
| RadeDecoder.UpdateCheck | src/rade_text.c:362-382 | a check node's sign and outgoing messages |
| RadeDecoder.UpdateVariable | src/rade_text.c:387-399 | a variable node's belief, decision and outgoing messages |
| RadeDecoder.Iteration | src/rade_text.c:357-402 | one iteration in place: all checks, then all variables, and the count of even checks |
| RadeDecoder.SumProduct | src/rade_text.c:350-406 | the iterations until every check is even or the limit is reached |
| RadeDecoderLaws.FirstCountIffCodeword | src/rade_text.c:359-373 | the first iteration counts every check as even exactly when the signs are a codeword |
| RadeDecoderLaws.CodewordIffFirstIteration | src/rade_text.c:350-406 | the decoder stops in iteration one exactly when the signs are a codeword, and then outputs that codeword, for any non-negative phi0 |
| RadeCorrection.SettledIsEven | src/rade_text.c:350-406 | if after iteration k every belief, less what came along the edge, speaks for a codeword, iteration k + 1 counts every check even, for any tables, input and phi0 |
| RadeCorrection.SettledStops | src/rade_text.c:350-406 | and the decoder has stopped by then |
| RadeOneBad.OneBadOutcome | src/rade_text.c:350-406 | for any codeword, tables and falling phi0, one ratio of the wrong sign up to a, all others right and at least b: a bit in two checks or more is put right in iteration two with all checks even, one in a single check is decided right with that check odd to the end, one in none is lost |
| RadeWeakSymbol.HraCorrects | src/rade_text.c:350-406 | with the actual tables and phi0, a is 1 and b is 5: two iterations and 56 even checks, but a hundred and 55 for the last parity bit, the only one in a single check |
| RadeDecoderLaws.EveryConversionFits | src/rade_text.c:350-400 | in every iteration check messages stay within ten and beliefs within thirty of the input, and what phi0 gets fits its 32-bit conversion, below inputs of 32000 |
| RadeDecoderLaws.DecoderStaysInRange | src/rade_text.c:322-427 | this holds of the decoder with phi0 and fresh nodes, and the conversions that set the nodes up fit too |
| RadeTables.TablesFit | src/rade_text.c:68-90 | the actual tables are in range, packed, free of repeats and each the other's transpose |
| RadeInterleaver.OneToOneIffCoprime | src/rade_text.c:486-500 | the interleaver's map is one-to-one exactly when b and N are coprime |
| RadeInterleaver.InterleaveBits | src/rade_text.c:489-500 | moves pair i to place b * i mod N |
| RadeInterleaver.Deinterleave | src/rade_text.c:503-509 | takes element i from place b * i mod N |
| RadeInterleaver.DeinterleaveUndoes | src/rade_text.c:489-509 | a word is the interleaving of another exactly when deinterleaving its pairs gives the other's, and there is only one |
| RadeInterleaver.GoldenPrimeCoprime | src/rade_text.c:485-486 | 37 and 56 are coprime |
| RadeDemod.SymbolsToLlrs | src/rade_text.c:445-477 | fills in two ratios a symbol |
| RadeDemod.MaxStarBounds | src/rade_text.c:437-443 | max_star0 is the maximum, too high by less than 0.6244, and symmetric |
| RadeDemod.MaxStarFalls | src/rade_text.c:437-443 | what it adds falls in a line from 0.6243 at equal likelihoods to nothing at 2.5068 apart |
| RadeDemod.SignsSpellTheSymbol | src/rade_text.c:459-476 | when one symbol's likelihood stands out, the signs of the ratios are its bits |
| RadeDemod.ExactIsNear | src/rade_text.c:634-643 | sender's map and receiver's table agree |
| RadeText.GenerateTxString | src/rade_text.c:590-648 | the channel values carry the codeword of the text's field, interleaved and padded |
| RadeText.PairsOnAir | src/rade_text.c:486-643 | pair i of the codeword is on symbol 37 * i mod 56, 00 as (1, 0), 01 as (0, 1), 10 as (0, -1), 11 as (-1, 0) |
| RadeText.LdpcDecode | src/rade_text.c:408-427 | the decoder run on freshly built nodes |
| RadeText.Demodulate | src/rade_text.c:654-678 | the ratios of the deinterleaved symbols at the root mean square of all symbols |
| RadeText.TextRx | src/rade_text.c:650-719 | calls back with the text of the decoded field exactly when the error estimate and the CRC pass |
| RadeRange.ScaledBound | src/rade_text.c:658-669 | in root mean squares the energy of a symbol is at most the number of symbols |
| RadeRange.ReceiverStaysInRange | src/rade_text.c:650-684 | so whatever the receiver is given, up to ten thousand values, no conversion of its decoder overflows |
| RadeLoopback.ClearIsHeard | src/rade_text.c:650-719 | whatever the channel did, if every symbol stays nearest to what was sent by the margin, the text is heard |
| RadeWeakSymbol.EnoughChecksIff | src/rade_text.c:686-718 | the error estimate lets a word through exactly from 45 even checks on, and then the CRC decides |
| RadeWeakSymbol.OneBadRatioIsHeard | src/rade_text.c:650-719 | whatever the channel did, with one ratio of the wrong sign up to 1 and all others right and at least 5 the text is heard |
| RadeWeakSymbol.OneWeakIsHeard | src/rade_text.c:650-719 | so it is with one symbol across the boundary to a neighbour, nearer to that by up to a third in squared distance, and all others nearly in place |
| RadeWeakSymbol.TurnedIsHeard | src/rade_text.c:590-719 | such as any text at any gain with any one symbol turned past the middle towards either neighbour |
| RadeLoopback.OneWrongCodeRejected | src/rade_text.c:711-718 | a field with one wrong code is never passed on |
| RadeLoopback.GainMeanSquare | src/rade_text.c:658-669 | the mean square of everything sent is the square of the gain |
| RadeLoopback.Loopback | src/rade_text.c:590-719 | for every text, size and positive gain the receiver hears the first eight characters as decoded, and as given exactly when they have no slash |
| CommandQueue.InsertEffect | src/cachingqueue.cpp:202-204 | an inserted command becomes the newest of its level and changes no other |
| CommandQueue.RemoveOldest | src/cachingqueue.cpp:86-96 | what run() takes is the oldest command of the level |
| CachingQueue.Scheduler.TakeTurn | src/cachingqueue.cpp:58-81 | whose turn it is, and the counter after it |
| CachingQueue.Scheduler.TakeOldest | src/cachingqueue.cpp:86-102 | dispatches the oldest of the level and puts it back if it recurs |
| CachingQueue.Scheduler.Process | src/cachingqueue.cpp:55-108 | one whole tick, cache update included |
| CachingQueue.Scheduler.Enqueue | src/cachingqueue.cpp:174-215 | add(): guards, duplicates, the immediate companion of a recurring command, the cache |
| CachingQueue.Scheduler.Remove | src/cachingqueue.cpp:264-281 | del(): every entry equal to the first recurring one, and its level |
| CachingQueue.Scheduler.ChangeLevel | src/cachingqueue.cpp:299-315 | changePriority(): the first recurring entry moves |
| CachingQueue.Scheduler.UpdateCache | src/cachingqueue.cpp:365-459 | the cache and the rig state after a reply or a request |
| CachingQueue.Scheduler.ReceiveValue | src/cachingqueue.cpp:348-363 | a reply from the rig |
| CachingQueue.Scheduler.GetCache | src/cachingqueue.cpp:469-490 | the cached value, and a new request when there is none or it is stale |
| CachingQueueLaws.ReachableIsValid | src/cachingqueue.cpp:43-315 | every reachable queue is sorted with nothing recurring at immediate priority, and every reachable cache has one entry a key |
| CachingQueueLaws.ServeLevel | src/cachingqueue.cpp:86-102 | a tick takes the oldest of the due level, makes it the newest if it recurs, and leaves all other levels alone |
| CachingQueueLaws.AddedLevels | src/cachingqueue.cpp:187-206 | what add() leaves on every level: equal entries gone if unique, an immediate request beside a recurring item, the item newest of its level |
| CachingQueueLaws.DeletedLevels | src/cachingqueue.cpp:264-281 | del() takes the entries equal to the first recurring one out of that level and touches no other |
| CachingQueueLaws.WithoutIs | include/cachingqueue.h:42-45 | what del() and a unique add() take out: all with the same command and receiver that recurs alike, whatever the parameter, and nothing else |
| CachingQueueLaws.DeletedItems | src/cachingqueue.cpp:264-281 | so del() leaves of that level all but the recurrences of the command |
| CachingQueueLaws.MovedLevels | src/cachingqueue.cpp:299-315 | changePriority takes one entry out of its level and makes it the newest of the new one |
| CachingQueueLaws.TickConservesRecurring | src/cachingqueue.cpp:95-102 | no tick changes the recurring commands of any level |
| CachingQueueLaws.MoveConservesRecurring | src/cachingqueue.cpp:299-315 | changePriority changes them over the whole queue neither |
| CachingQueueLaws.DuplicateRefusedIff | src/cachingqueue.cpp:184-186 | a recurring command already on the level is refused exactly when it recurs on no lower-numbered level |
| CachingQueueLaws.DuplicateReached | src/cachingqueue.cpp:184-206 | any ordinary command put on High, Highest and High again recurs twice on High |
| CachingQueueLaws.MoveAddsOne | src/cachingqueue.cpp:299-315 | changePriority adds a recurrence to the new level exactly when there is one and the first is on another level |
| CachingQueueLaws.MoveDuplicatesIff | src/cachingqueue.cpp:299-315 | a level comes to hold a command twice exactly when it held it once and a lower-numbered level held it too |
| CachingQueueLaws.MoveDuplicates | src/cachingqueue.cpp:299-315 | any ordinary command put on High and Highest and moved to High recurs twice there |
| CachingQueueLaws.FairShares | src/cachingqueue.cpp:58-81 | any 22 ticks from a counter in 2..23 give Highest 11 turns, High 4, every other level one, and two to nobody |
| CachingQueueLaws.FirstInFirstOut | src/cachingqueue.cpp:86-102 | in runs that take nothing out of a level but by ticks, immediate commands and all, it is served oldest first, and once a turn |
| CachingQueueLaws.BoundedWaiting | src/cachingqueue.cpp:55-108 | in such runs, from any counter, when i ticks find an immediate command, (i + 1) * (1040 + 22 * m) ticks suffice for a level to send its share times m of what was waiting, oldest first |
| CachingQueueLaws.CalmWaiting | src/cachingqueue.cpp:55-108 | 22 * m do with the counter in its cycle and nothing immediate |
| CachingQueueLaws.TurnIsLeastDivisor | src/cachingqueue.cpp:58-81 | at any counter value it is the turn of the level whose number is the least that divides it, and nobody's exactly when none of 2, 3, 5, 7, 11, 19 and 23 does |
| CachingQueueLaws.LowestIsReached | src/cachingqueue.cpp:76-81 | from any 16-bit counter the lowest level has its turn within 1040 ticks, and the counter is back in its cycle |
| CachingQueueLaws.CounterFits | src/cachingqueue.cpp:51-81 | the counter stays in sixteen bits |
| CachingQueueLaws.FromTheStart | src/cachingqueue.cpp:51-81 | from the start the first tick is nobody's, and each 22 after it give every level its share |
| CachingQueueLaws.SettingsAre | src/cachingqueue.cpp:136-152 | after any run interval and capabilities, which decide what is let in, are the last ones set |
| CachingQueueLaws.NothingAfterClear | src/cachingqueue.cpp:328-332 | after clear() nothing is dispatched until something is added |
| RigCache.UpdateRefinesMap | src/cachingqueue.cpp:417-457 | an update changes the one entry of its command and receiver, to what compare() decides |
| RigCache.EveryCacheIsItsHistories | src/cachingqueue.cpp:417-457 | after any updates an entry depends on its own history alone |
| RigCache.RequestChangesNothing | src/cachingqueue.cpp:425-434 | a request without a value changes no value |
| RigCache.FollowsIffCompared | src/cachingqueue.cpp:506-592 | an entry holds its last valid value, as far as compare() can see, exactly for the types it really compares, and its first for all others |
| RigCache.LastExactlyIff | src/cachingqueue.cpp:506-592 | an entry holds exactly its last valid value for the ten types compare() lets through, and for no other |
| RigHistory.EntryIsHistory | src/cachingqueue.cpp:95-102 | after any run an entry holds what compare() leaves of its history, read off the events: each reply's value, each command sent from another level than immediate, each immediate request let in, in order |
| RigHistory.ReplyIsKept | src/cachingqueue.cpp:348-457 | a reply of a type that is compared stays the entry's value, as far as compare() can see, over any continuation until the next valid value for it |
| RigHistory.AnswerOverRuns | src/cachingqueue.cpp:469-490 | getCache's answer after any run is that history's, and when it asks again one request waits at immediate priority, the newest there, and the value stays |
| RigHistory.AsksIff | src/cachingqueue.cpp:469-490 | and it asks again, except for power and VFO selection, exactly when the value is stale or none was ever said |
| RigHistory.RigIsSaid | src/cachingqueue.cpp:365-415 | after any run mode, VFO and receiver are each what the last reply or request with a say in it set |
| Ipfix.RecordsRead | src/pskreporter.cpp:343-352 | any number of records and less than a shortest record of padding read back as they were |
| Ipfix.VarFieldReads | src/pskreporter.cpp:264-276 | a field of up to 65535 bytes reads back from either length form |
| Ipfix.TemplateReads | src/pskreporter.cpp:295-311 | a template record teaches a reader that template |
| Ipfix.SetCut | src/pskreporter.cpp:109-112 | a padded set is cut out exactly by its length |
| PskReporter.PadTo4 | src/pskreporter.cpp:109-112 | zeros up to a multiple of four |
| PskReporter.EncodeVarField | src/pskreporter.cpp:264-276 | the variable-length form of a field |
| PskReporter.TemplateSet | src/pskreporter.cpp:290-316 | the two templates, padded, with their length patched in |
| PskReporter.StationSet | src/pskreporter.cpp:318-335 | the station's record as a set |
| PskReporter.SpotSet | src/pskreporter.cpp:338-355 | all spots' records as a set |
| PskReporter.TemplatesOnWire | src/pskreporter.cpp:290-316 | the two templates byte for byte |
| PskReporter.FieldOnWire | src/pskreporter.cpp:264-276 | one byte of length up to 254, else 255 and two |
| PskReporter.SpotOnWire | src/pskreporter.cpp:338-355 | a spot's record byte for byte: callsign, locator, frequency, report, mode, time |
| PskReporter.PacketNumbers | src/pskreporter.cpp:278-335 | version 10, and set numbers 2 and 0x50E2 where a collector looks for them |
| PskReporter.BuildPacket | src/pskreporter.cpp:278-360 | the whole packet with its length patched in |
| PskReporter.PacketReads | src/pskreporter.cpp:278-360 | a collector that knows the templates, or is sent them, reads exactly the station and every spot, for any number of spots below 65536 bytes |
| PskReporter.SpotRecovered | src/pskreporter.cpp:344-350 | a spot is recovered from its record exactly when its numbers fit their fields |
| PskReporter.LengthRightIffFits | src/pskreporter.cpp:357-359 | the header announces header and sets, which are multiples of four, and is right exactly when that fits sixteen bits |
| PskReporter.ShortestRecords | src/pskreporter.cpp:295-311 | the shortest records are four and twelve bytes, so padding is never one |
| SpotReporter.UdpReporter.ConnectToService | src/pskreporter.cpp:143-158 | starts connecting, with a callsign and a grid |
| SpotReporter.UdpReporter.OnLookupFinished | src/pskreporter.cpp:218-241 | connected once the name is resolved |
| SpotReporter.UdpReporter.UpdateRxSpotWithGrid | src/pskreporter.cpp:194-211 | queues a spot while connecting or connected and on a frequency |
| SpotReporter.UdpReporter.SendPacket | src/pskreporter.cpp:362-384 | the datagram, and the state after it was or could not be written |
| SpotReporter.UdpReporter.OnSendTimer | src/pskreporter.cpp:243-248 | sends when there is something to send |
| SpotReporter.UdpReporter.DisconnectFromService | src/pskreporter.cpp:160-176 | sends what is left, then drops the rest |
| SpotEvents.LetInIff | src/pskreporter.cpp:194-211 | over any run a reception becomes a spot exactly when it comes while connecting or connected, after a frequency, with a callsign; it then carries that callsign and locator, cleaned, the report bounded to a byte, the last frequency, its time, and its mode or else the last transmitted one |
| SpotEvents.EnteredAreSpots | src/pskreporter.cpp:194-211 | and the spots of a run are one for each such reception, in order |
| SpotEvents.ReceptionsAreTold | src/pskreporter.cpp:160-384 | these are, in order, what a collector read of the datagrams or was dropped with them, then what still waits |
| SpotEvents.SentIff | src/pskreporter.cpp:160-248 | all that waits leaves with a flush exactly when the address was found and the datagram can be written, and with a disconnect always, unless already disconnected |
| SpotEvents.BatchSays | src/pskreporter.cpp:278-384 | every datagram names the station as last set and cleaned, and has the templates when none was sent for an hour |
| SpotReporter.EverySpotAccountedFor | src/pskreporter.cpp:160-211 | every spot queued is once, in order, in a written batch, a dropped one, or still waiting |
| SpotReporter.OnlyDisconnectDrops | src/pskreporter.cpp:160-176 | spots are dropped exactly when a disconnect could not write them |
| SpotReporter.SequenceCountsRecords | src/pskreporter.cpp:362-384 | every datagram's sequence number is the number of records written before it modulo 2^32 |
| SpotReporter.CollectorReadsAll | src/pskreporter.cpp:362-384 | a collector that starts out knowing nothing and learns from what it can read, reads every written datagram when it comes: templates are always there in time |
| SpotBacklog.ManyAreTooLarge | src/pskreporter.cpp:318-355 | 5459 spots are too many for a datagram, however short their texts |
| SpotBacklog.BacklogStays | src/pskreporter.cpp:362-384 | spots too long for a datagram all stay, with every later one, over any run without a disconnect |
| SpotBacklog.BacklogDropped | src/pskreporter.cpp:160-176 | and the disconnect that ends it drops all of them |
| HilbertFir.Transformer.Next | src/radeprocessor.cpp:216-240 | one sample through the ring gives the convolution and the delayed sample of the stream so far |
| HilbertFir.Transformer.Process | src/radeprocessor.cpp:210-240 | a packet gives the outputs for its part of the stream |
| HilbertFir.PacketsDoNotMatter | src/radeprocessor.cpp:210-240 | cut anywhere, the outputs are those of the whole stream at once |
| HilbertFir.Receive | src/radeprocessor.cpp:216-240 | from the start, output n is the sum of h[k] * x[n - k] over 127 taps, and x[n - 63] |
| HilbertFir.ImpulseResponse | src/radeprocessor.cpp:216-240 | a single one brings the 127 taps out one after the other, and itself 63 samples later |
| HilbertFir.Linear | src/radeprocessor.cpp:216-240 | and the transformer is linear, so that decides its answer to everything |
| AprsPosition.RoundingError | src/aprsprocessor.cpp:297-309 | fields in range, carries included, and off by at most 1/12000 degree |
| AprsPosition.AngleStable | src/aprsprocessor.cpp:297-309 | an angle written and read is written the same again |
| QtText.TrimmedLatin1Iff | src/aprsprocessor.cpp:324-326 | a text comes back from Latin-1, trimmed, as it was exactly when all its characters exist there |
| AprsPosition.FilledAsMeantIff | src/aprsprocessor.cpp:311-322 | the chain of arg() puts every field where it belongs exactly when the table is no per cent sign or the longitude at least 110 degrees |
| AprsPosition.BuiltIsParsed | src/aprsprocessor.cpp:247-327 | then every position on Earth is parsed back, each coordinate within 1/12000 degree, symbols and comment as Latin-1 has them |
| AprsPosition.BuiltIsAcceptedIff | src/aprsprocessor.cpp:247-327 | and otherwise the parser rejects the report |
| AprsPosition.RecoveredIff | src/aprsprocessor.cpp:288-327 | symbols and comment come back as given exactly then and when all their characters exist in Latin-1 |
| AprsPosition.EuroIsLost | src/aprsprocessor.cpp:324-326 | 73 and a euro sign comes back as 73 and a question mark, from every place |
| AprsPosition.PercentIsLost | src/aprsprocessor.cpp:311-322 | no report from 10 degrees east with table % is accepted |
| AprsPosition.RelayedStays | src/aprsprocessor.cpp:247-327 | every report that is accepted, which is as above, has the same digits when built again from what was parsed, and the same hemispheres exactly unless a west or south coordinate rounded to zero |
| AprsPosition.TwoAcceptedIff | src/aprsprocessor.cpp:93-111 | which two-character fields the parser lets through |
| AprsPosition.ThreeAcceptedIff | src/aprsprocessor.cpp:103-109 | which three-character fields it lets through |
| AprsPosition.AcceptedIff | src/aprsprocessor.cpp:74-122 | which bodies of reports, behind type and time, are accepted |
| AprsReports.TimedReads | src/aprsprocessor.cpp:62-72 | a report of type / or @ with a time, six digits and z, / or h, reads as the one without, whatever follows |
| AprsReports.UntimedReads | src/aprsprocessor.cpp:247-288 | without one, and with type = always, it reads as one of type ! |
| AprsReports.BuiltWithTimeReads | src/aprsprocessor.cpp:62-327 | a built report with a time put in, or sent as any other type, reads as the same place |
| AprsReports.BuiltDefaults | src/aprsprocessor.cpp:311-322 | without symbols a report has a slash for the table and a dot for the code |
| AprsReports.BuiltComment | src/aprsprocessor.cpp:324-326 | of a comment the first 43 characters are sent |
| AprsReports.PositionIff | src/aprsprocessor.cpp:62-288 | exactly which whole reports are accepted as an uncompressed position |
| AprsReports.ReportKinds | src/aprsprocessor.cpp:247-288 | exactly which reports are read as MIC-E and which as compressed, and what of them |
| AprsReports.TimedExample | src/aprsprocessor.cpp:62-122 | @092345z4903.50N/07201.75W> is 49 degrees 3.50 minutes north and 72 degrees 1.75 minutes west |
| AprsPosition.LettersSlipThrough | src/aprsprocessor.cpp:93-109 | a whole report with letters in its degrees is accepted, as 39.5 north and 89.5 east |
| CsmaQueue.TxQueue.DropSuperseded | src/direwolfprocessor.cpp:359-367 | the backward loop removes exactly the superseded frames and keeps the others in order |
| CsmaQueue.TxQueue.TransmitFrameBytes | src/direwolfprocessor.cpp:342-378 | enqueues behind what is kept and starts the timer |
| CsmaQueue.TxQueue.TxCsmaTick | src/direwolfprocessor.cpp:380-414 | one tick: busy, idle stretch begun, too short, or the first frame keyed |
| CsmaQueue.NeverTwice | src/direwolfprocessor.cpp:359-368 | no reachable queue holds two 15-byte frames between the same stations |
| CsmaQueue.NothingElseLost | src/direwolfprocessor.cpp:342-414 | frames of any other length are keyed or queued once, in order; of 15-byte frames with one address the latest is never lost |
| CsmaQueue.KeptPlace | src/direwolfprocessor.cpp:359-367 | an entry that is kept stands behind the kept ones before it |
| CsmaQueue.KeptGrows | src/direwolfprocessor.cpp:359-367 | so kept entries keep their order and no two share a place |
| CsmaQueue.LostIff | src/direwolfprocessor.cpp:342-414 | over any run a queued frame is lost exactly when it has 15 bytes and a later one of 15 bytes with its 14-byte address is enqueued before it is keyed, whatever the control bytes |
| CsmaQueue.AsIfNeverAsked | src/direwolfprocessor.cpp:359-378 | a frame superseded before any tick leaves the queue as if it had never been enqueued |
| CsmaQueue.ConnectLost | src/direwolfprocessor.cpp:359-367 | a SABM waiting for the channel is lost when the DISC of the same connection attempt is enqueued |
| CsmaQueue.KeyedOnlyWhenIdle | src/direwolfprocessor.cpp:394-413 | a frame is keyed only after idle ticks, with nothing keyed in between, that span 250 ms at 300 baud and else 100 |
| CsmaQueue.KeyedOnceIdle | src/direwolfprocessor.cpp:394-413 | and one is keyed once idle ticks span that, whatever is enqueued meanwhile |
| CsmaQueue.TimerRunsIff | src/direwolfprocessor.cpp:380-385 | after a tick the timer runs on exactly when something was waiting |

## Left out

* Link loss during a transfer: termination of the link does not reset a transfer
  (src/webserver.cpp:4506-4520), so the two stations assume that the link stays up.
* User aborts and the 60-second timers in the two-station theorems: aborts on both sides can leave a
  stale RR or AF in flight. The stale RR of a receiver that aborts is followed to its end in
  `YappAborts`; timers are modelled for one session over whole runs, and aborts for the pump.
* The other sessions on the modem: a burst that is another's is one the sender does not see, and the
  two-station runs let bursts come at any time.
- YappSafety.ReportedFilesWereDelivered: offers are of files whose name has no NUL and whose header body
  fits its length byte, which the source asserts, and typed text is free of the seven lead bytes; the
  packet length the link currently has is an input of each delivery.
* A missing link processor (`axProc` null), the wall-clock throttling of progress notices, the
  texts of scrollback entries, and the decoding of file names and reasons from UTF-8.
* Packet PTT pacing (src/webserver.cpp:4075-4349).
* Rounding of floats in the RADE text, the Hilbert transformer and APRS: they are reals. The square
  root is a parameter with its defining property.
- RadeText.Demodulate: does not model symbols whose root mean square is zero, because the source then
  divides zero by zero.
- RadeText.TextRx: likewise, because the source then converts what is not a number to an integer.
* The callback handle of the RADE text: a callback is assumed to be set, and its scratch buffer is
  local. Sub-nodes of the decoder's graph are a sequence inside each array element, updated with it.
* The computation of the Hilbert coefficients, the resampler, and the RADE modem itself.
- CachingQueue.Scheduler.UpdateCache: does not model the times of the last request and reply an entry
  carries, because they only serve the staleness test of getCache.
- CachingQueue.Scheduler.GetCache: takes the outcome of that test, from reply time, clock and a random
  number, as an input.
* Logging in the command cache. Where the source would follow a null rigCaps for a sub receiver or
  second VFO, the model treats it as having none. Conversion between QVariant types is Qt's and a
  parameter.
* QMultiMap is Qt 5's, whose hinted insertion of an immediate command at the end places it like any
  other insertion.
* The order of cache entries of different commands, which nothing reads.
* Losses in UDP: the collector gets every datagram that was written, and none of 65536 bytes or more
  is, which UDP cannot carry. QString's toUpper and trimmed are a parameter of the reporter.
- AprsPosition.Build: does not model positions off the Earth, which a precondition excludes.
* MIC-E and compressed APRS positions, the station list and the beacon timer.
* `ax25_link`, the modem's carrier detection (an input of each tick), and single-shot UI frames.
* Everything else in the repository: HTTP and WebSocket handling, settings, audio, rig protocols.
