# Go-audio-stream: verified models of its byte-level and concurrent machines

The library captures live audio over RTSP, HTTP, HLS and plain RTP. This project models the parts of it
that carry the most state and branching, and proves what they are for: that what a sender put in comes out
unchanged however the network cuts it up, that arithmetic and buffers stay in range on any input, and that
the concurrent lifecycles keep their promises in every interleaving.

How a module is laid out: the code of a source file that updates fields or loops is a class or a method with
the same fields, branches and loops, and its contract ties it to a function on values; the theorems are lemmas
about those functions. A run of a concurrent component is a list of atomic steps (one critical section, one
call into user code, or one channel operation each), and its theorems hold for every list that can happen.

| module | models |
|---|---|
| Bits, BitFields | bytes as bit strings, big-endian fields, the shift-and-mask reads |
| G726, G726Packing, G726Decoder | the ITU-T G.726 decoder on 32-bit integers, its codeword packings (RFC 3551 section 4.5.4 and AAL2), the decoder object |
| G726Reference, G726Laws, G726Prediction | the recommendation's tables and formulas over real numbers, and how closely every part of a step follows them |
| RtspMessage, RtspReader | RTSP messages and interleaved frames, the resynchronising stream reader |
| RtspWriter | RTSP messages as they are written, with CR LF or bare line feeds, and what the parser and the reader make of them |
| RtspResync | what the stream reader makes of stray bytes between units |
| RtspLifecycle | Describe, Setup, Play, Close, the reader's terminal sequence, the UDP receivers |
| RtspVerbs | what each lifecycle verb accomplishes, and the order the verbs can come in |
| Supervisor, Backoff | the reconnect loop and its schedule |
| SupervisorStory | what OnState is told, from the outcomes of connects and sessions and the verdicts of the retry policy |
| Adts, AdtsFramer, Mpeg, Mp3Framer | ADTS and MPEG audio headers and the two streaming framers |
| AudioHeaders | ADTS and MPEG audio headers written from their fields, the frame length from bit rate and duration |
| AdtsChunking | exactly when the ADTS framer's output does not depend on how its input arrives |
| AacRtp, Mp3Rtp, FlacRtp | RFC 3640 AAC-hbr, RFC 2250 MPEG audio and FLAC payloads |
| LatmMux, LatmBits, Latm, LatmOffsets | LATM (ISO/IEC 14496-3, RFC 3016): the StreamMuxConfig on bit strings, the bit reader, the depacketizer with its two config arrays |
| LatmWriter | StreamMuxConfigs and AudioMuxElements as they are written, and what the depacketizer reads in them |
| TsPacket, TsDemux, TsDemuxer | MPEG-TS packets and sections, the demultiplexer's decisions, the demultiplexer object driving the ADTS framer |
| TsTables | program tables as they are written, in one packet or in pieces |
| TsLoss, TsSplice | lost transport packets, announced discontinuities and stray bytes: what is detected, and that no access unit reaches across |
| Fmp4, Fmp4Cut | slicing access units out of a fragmented MP4, whole or cut short |
| HlsWindow, HlsWork | HLS segment numbering and the live-window loop, and what it does with every entry of its playlists |
| PayloadTypes | which RTP payload type an RTSP track listens to |
| CodecPaths, GapAccounting, Sources | loss accounting from packets to frames through every codec's own depacketizer, in the RTSP track and the UDP client |
| FrameDelivery | which frames an arrival adds, with which gaps, and fragmented AAC over losses |
| LossyDelivery | what the callback of such a source can see of lossy MPEG audio and FLAC streams |
| HttpAuth, DigestAnswer | WWW-Authenticate parsing, challenge selection, the Digest answer, and the answer against the RFC's text |

Where the code differs from its own documentation, or from what it is for, the code is modelled:

- `hlssource/doc.go:22-24` says that segments dropped out of the live window advance the media clock. The code
  advances it only for EXT-X-GAP segments (`hlssource/client.go:677-682`); the clock clause of
  `HlsWindow.SessionKept` states what happens.
- `supervisor/supervisor.go:408-412` says that all callers of Wait observe the same cause. They do exactly when the
  retry policy never refuses a nil error (`Supervisor.WaitsAgreeExactly`): a session that ends without an error
  and is not retried records no terminal error, so a Close that follows records its own for later callers.
- `rtsp/reader.go:671-678` says that guarding the TEARDOWN's deadlines keeps the interrupt in flight from aborting
  it. The guard orders the two but does not exclude this one: a reader that arms first is overtaken
  (`RtspLifecycle.TeardownDeadlineCanBeLost`), and `RtspLifecycle.TeardownDeadline` says exactly when.
- The ADTS framer is not independent of chunking on every stream: in sync it trusts a frame at the end of the
  buffer that it would reject with the next bytes there, such as the second of two good frames with junk behind
  them (`AdtsFramer.ChunkingMattersOnJunk`). `AdtsChunking.ChunkingExactly` says for which streams it is: those on which every header rejected in sync lies where the bytes disproving it had been needed before.
  Never losing sync is sufficient (`AdtsChunking.KeptSyncIsForeseen`) but not necessary
  (`AdtsChunking.SyncNeedNotBeKept`).
- `hlssource/playlist.go:189-250` numbers segments from the media sequence in effect at each, so a late
  EXT-X-MEDIA-SEQUENCE tag can repeat a number (`HlsWindow.LateNumberingRepeats`);
  `HlsWindow.ConsecutiveExactly` says when numbering is consecutive.
- The demultiplexer drops a PES packet whose fixed header is split by a large adaptation field
  (`hlssource/tsdemux.go:185-194`); `TsDemux.PesFeeds` and `TsDemux.DemuxInvertsMux` say exactly when nothing is lost.
- `hlssource/tsdemux.go:154-169` compares four-bit counters, so a loss of a multiple of 16 audio packets goes unnoticed,
  and after one of 15 more than that the next packet is taken for a duplicate and dropped as well.
  `TsLoss.HoleExactly` says that every other loss between two audio packets of a segment is charged, and what happens
  at these two. A loss at the front of a segment is never noticed, the counters of the segment before it being no measure.
- With no callback registered, the RTSP G.711, L16 and G.726 paths forget their gaps; `GapAccounting.ConservedExactly`
  says that these are the only ones.

## Model

| member | source | states |
|---|---|---|
| G726.I2FNormalised | depacket/g726/g726.go:447-460 | The small-float conversion keeps the sign, its exponent is the bit length of the magnitude, and its mantissa is the leading six bits, for every 17-bit value |
| G726.ExponentSixteen | depacket/g726/g726.go:447-460 | The exponent reaches 16, for the most negative 16-bit signal |
| G726.ExponentMaskIsIdentity | depacket/g726/g726.go:435-443 | The 4-bit exponent mask of the inverse quantiser never discards a bit, at any rate, scale in range and codeword |
| G726Decoder.ReachableInRange | depacket/g726/g726.go:330-430 | Every state reachable from reset keeps all its ranges, at any bit rate over any codewords of any length, so no 32-bit operation of a step overflows |
| G726Decoder.RunSplit | depacket/g726/g726.go:330-430 | Decoding a list of codewords is decoding any prefix and then the rest from the state it left, samples and state alike |
| G726Decoder.PcmExactWhen | depacket/g726/g726.go:429-429 | The PCM sample is four times the signal exactly when that fits 16 bits; a signal from 16384 in magnitude comes out as minus or plus one, not as the nearest bound |
| G726Decoder.DecodeIsStreamFunction | depacket/g726/g726.go:221-254 | Two payloads of whole codewords decoded in turn give the PCM and the final state of their concatenation |
| G726Decoder.PackingsAgree | depacket/g726/g726.go:301-326 | One codeword list packed LSB-first or MSB-first and decoded with the matching reader gives the same PCM and state |
| G726Packing.CodesInWire | depacket/g726/g726.go:221-254 | The codewords found in the transmitted bits of a codeword list are that list, in either packing |
| G726Packing.ReadCodewordLSB | depacket/g726/g726.go:301-309 | The loop reads the codeword whose transmitted bits start at a position, least significant bit first |
| G726Packing.ReadCodewordMSB | depacket/g726/g726.go:318-326 | The loop reads the codeword whose transmitted bits start at a position, most significant bit first |
| G726Decoder.Decoder.New | depacket/g726/g726.go:159-176 | A decoder in the reset state for one of the four rates and two packings by configuration value, or which of the two is unknown, the rate looked at first |
| G726Decoder.Decoder.Reset | depacket/g726/g726.go:182-199 | Reset restores the initial state whatever was decoded |
| G726Decoder.Decoder.DecodeSample | depacket/g726/g726.go:330-430 | One step in place equals the step on values, whose signs, magnitudes and adaptations G726Laws and G726Prediction state; every 32-bit operation is checked, and the ranges are kept |
| G726Decoder.Decoder.Decode | depacket/g726/g726.go:221-254 | Exactly when the payload is not whole codewords or the buffer is short nothing changes; otherwise the buffer holds the decoded PCM, its tail untouched, and the state is the one after those codewords |
| G726Decoder.Decoder.DecodeAlloc | depacket/g726/g726.go:264-276 | As Decode, into a fresh buffer of exactly the decoded size |
| G726Reference.TablesArePublished | depacket/g726/g726.go:66-112 | Each codeword has the quantiser logarithm, scale multiplier and speed weight that the recommendation tabulates for its level, within rounding, the same for both signs |
| G726Laws.Signs | depacket/g726/g726.go:331-350 | Codewords below half reconstruct a difference of at least zero, the others of at most zero, and the two of a level opposite ones, at every rate and in every state in range |
| G726Laws.MagnitudeRises | depacket/g726/g726.go:435-443 | The magnitude never falls with the quantiser level |
| G726Laws.MagnitudeMeans | depacket/g726/g726.go:435-443 | The magnitude is the piecewise linear antilogarithm, rounded down, of the published logarithm plus that of the scale factor; zero at the level that is minus infinity and below one |
| G726Laws.FirstSample | depacket/g726/g726.go:330-430 | From reset the first PCM sample is four times the difference, so of the codeword's sign |
| G726Laws.ZeroMoves | depacket/g726/g726.go:372-374 | Outside a transition a zero coefficient leaks towards zero and then moves by 128: up exactly when the new difference has the sign of its history entry, down exactly when it has the other, not at all for a zero difference; it is the recommended coefficient within one unit |
| G726Laws.PolesMove | depacket/g726/g726.go:366-371 | Each pole leaks and is pulled by the product of the new polarity with the one before or the one before that, the second against the first, within the stability limits: the recommended coefficients within a few units |
| G726Laws.TransitionMeans | depacket/g726/g726.go:335-346 | A transition is a latched tone with a magnitude above three quarters of the antilogarithm of the slow scale factor, held above two to the tenth |
| G726Laws.TransitionClears | depacket/g726/g726.go:362-408 | It clears both predictors and opens the speed control; a tone is latched exactly by a second pole below -11776 |
| G726Laws.ScalesMove | depacket/g726/g726.go:397-411 | The fast and slow scale factors and the two averages are the recommended leaky sums with the published weights, within about one unit |
| G726Laws.SpeedMoves | depacket/g726/g726.go:397-407 | The speed control leaks by a sixteenth and is pushed exactly when the signal is small, a tone, or its averages differ by an eighth |
| G726Laws.MixtureMoves | depacket/g726/g726.go:412-416 | The scale factor is the mixture of the fast and the slow one by the speed in 64ths, within two units |
| G726Prediction.HistorySigns | depacket/g726/g726.go:383-390 | After any run the signs in the difference history are those of the last six codewords, newest first |
| G726Prediction.SignalMeans | depacket/g726/g726.go:351-386 | The reconstructed signal is the estimate plus the difference modulo 65536, exactly it when that fits, and enters the history first |
| G726Prediction.MultMeans | depacket/g726/g726.go:464-477 | A predictor product has the sign of its factors' signs, and is at most one below the exact magnitude and three 64ths above it |
| G726Prediction.EstimateMeans | depacket/g726/g726.go:418-427 | The two estimates are half the sums of the exact coefficient-by-history products, within the slack of the products, the zeros alone for the partial one |
| RtspMessage.ScanForHead | rtsp/message.go:452-469 | The scan finds exactly the first blank line of either form within the header cap, or says which of too large and incomplete holds |
| RtspMessage.ParseHeaderLines | rtsp/message.go:562-585 | The loop fills the same field map as reading the lines one by one, with the first offending line's error |
| RtspMessage.InterleavedRoundTrip | rtsp/message.go:694-724 | Parsing a marshalled interleaved frame gives back its channel and payload whatever follows it |
| RtspMessage.ClassifyStable | rtsp/message.go:659-680 | A decided classification is not changed by further bytes |
| RtspMessage.MessageStable | rtsp/message.go:380-425 | A message parse that did not ask for more bytes gives the same verdict with any bytes appended |
| RtspMessage.InterleavedStable | rtsp/message.go:694-708 | The same for interleaved frames |
| RtspMessage.IncompleteMessageIsShort | rtsp/message.go:602-634 | A message that needs more bytes is shorter than the header and body caps together |
| RtspMessage.IncompleteFrameIsShort | rtsp/message.go:694-708 | A frame that needs more bytes is shorter than the largest frame |
| RtspReader.DecideStable | rtsp/reader.go:52-171 | What the loop decides on a buffer it also decides with more bytes behind it, in or out of resynchronisation |
| RtspReader.AbsorbSplit | rtsp/reader.go:52-171 | Framing a prefix and then its remainder with the later bytes is framing the whole, on any bytes |
| RtspReader.SessionIsAbsorb | rtsp/reader.go:551-572 | A session over any reads ends in the state of framing their concatenation at once |
| RtspReader.ChunkIndependence | rtsp/reader.go:52-171 | Any two ways of cutting the same bytes into reads give the same dispatches, discards, budget and cause |
| RtspReader.BufferNeverFull | rtsp/reader.go:551-572 | No session on any bytes ends because the accumulation buffer is full |
| RtspReader.SessionConserves | rtsp/reader.go:258-266 | Dispatched and discarded bytes are, in order, a prefix of the stream; the resync count is the single-byte discards since the last clear and passes 4096 only by ending the session |
| RtspReader.MarshalledFrameIsWellFormed | rtsp/message.go:714-724 | Every frame the marshaller writes is a well-formed unit of a stream |
| RtspReader.MessageParses | rtsp/message.go:380-425 | A head without a blank line of its own, CR LF CR LF and the declared body parse as one message of exactly those bytes |
| RtspReader.WellFormedStream | rtsp/reader.go:52-171 | Well-formed units without a TEARDOWN, cut into reads anywhere, are dispatched exactly, in order, with no resync |
| RtspWriter.HeaderMeans | rtsp/message.go:145-168 | Looking up a name, in any case, finds exactly the values written under it, in order |
| RtspWriter.WrittenHeaderMeans | rtsp/message.go:335-375 | A marshalled header holds the computed CSeq and Content-Length, whatever was given for them, and every other field as given |
| RtspWriter.HeadReadsBack | rtsp/message.go:430-478 | A written head has exactly its start line and fields, and its blank line is the first one |
| RtspWriter.BodyLengthMeans | rtsp/message.go:602-634 | No Content-Length is 0; printed numbers with any white space about them must agree, a negative one is bad, one above the cap too large, and otherwise the number is the length |
| RtspWriter.ResponseReadsBack | rtsp/message.go:266-293 | A marshalled response classifies as a response and parses, with anything behind it, into exactly its code, reason, CSeq, fields and body, consuming exactly its bytes |
| RtspWriter.RequestRoundTrip | rtsp/message.go:220-256 | The same for a marshalled request of a recognised method |
| RtspWriter.MethodsRecognised | rtsp/message.go:659-680 | All eleven methods of RFC 2326 are recognised |
| RtspWriter.BareMessageReads | rtsp/message.go:448-478 | A message with bare line feeds parses as the one with CR LF, fields and body alike |
| RtspWriter.WrittenStream | rtsp/reader.go:52-171 | Whatever responses, requests and media frames a server writes, cut into reads anywhere, the reader dispatches exactly those units, with the fields and bodies written, and resynchronises nowhere |
| RtspResync.StrayIsSkipped | rtsp/reader.go:110-145 | A byte is passed over where neither media nor a message begins, and while searching also where a frame of an unbound channel begins or what looks like a message is none |
| RtspResync.BudgetEnds | rtsp/reader.go:258-266 | One stray byte over the 4096 of the budget ends the session, those before it discarded |
| RtspResync.UnitIsTaken | rtsp/reader.go:52-171 | A written unit is taken whole while searching as well, media only of a bound channel and under the gate |
| RtspResync.DamagedStream | rtsp/reader.go:52-171 | Of written units with stray bytes among them, cut into reads anywhere, exactly the stray bytes are discarded and exactly the units dispatched, in order; a message clears the count, and media does unless while searching it proves unusable |
| RtspReader.Reader.ResyncOne | rtsp/reader.go:258-266 | Discards one byte and counts it, or ends the session past the budget leaving the bytes |
| RtspReader.Reader.Fill | rtsp/reader.go:551-572 | Compacts, then reads once or reports the ceiling or the end of input, losing no pending byte |
| RtspReader.Reader.Accept | rtsp/reader.go:146-170 | Consumes a unit, and clears the budget exactly when the unit was not gate-admitted or proved usable |
| RtspReader.Reader.ReadLoop | rtsp/reader.go:52-82 | The loop over fields ends in exactly the reference's state and leftover bytes |
| RtspLifecycle.ClosedForGood | rtsp/client.go:446-475 | In every interleaving the client is closed exactly when a terminal error is recorded, that error never changes, closed is never left and the state never goes back |
| RtspLifecycle.CountsPrecedeJoins | rtsp/play.go:57-79 | Every WaitGroup count is taken while the reader is still in its framing loop, before either join is reachable |
| RtspLifecycle.ReservationsMatched | rtsp/play.go:104-133 | Each reserved count is matched by a running or a still-to-start receiver, none is released for missing sockets, and a finished reader leaves no goroutine behind |
| RtspLifecycle.SocketsAccountedFor | rtsp/setup.go:462-513 | Every UDP socket pair ever opened is closed, registered, or owned by the Setup in progress; with the reader done and no verb running all are closed |
| RtspLifecycle.ReceiversInterrupted | rtsp/udprecv.go:272-285 | Once the shutdown funnel has run, every receiver still running has an expired read deadline |
| RtspLifecycle.OneTransport | rtsp/setup.go:109-125 | All tracks of a session share the pinned transport, and no two share an id, a channel or a socket pair; Play commits at most once |
| RtspLifecycle.TeardownDeadline | rtsp/reader.go:644-695 | A TEARDOWN is written only with a session recorded, and under an expired deadline exactly when the shutdown's interrupt landed between arming it and the write |
| RtspLifecycle.TeardownDeadlineCanBeLost | rtsp/client.go:446-464 | A run of a described client with one track set up and its session recorded in which that happens |
| RtspLifecycle.TeardownCompletes | rtsp/reader.go:623-631 | In every run, once a terminal error is recorded the shutdown, the reader, the verb in progress and the goroutines have a bounded number of steps left, and until the reader is done one is open that nothing can withhold: teardown's joins cannot hang |
| RtspLifecycle.CommitFindsSockets | rtsp/play.go:57-79 | At Play's guarded commit every UDP track has its sockets in the media map |
| RtspLifecycle.NextChannelPair | rtsp/setup.go:346-366 | Proposes the lowest even channel above every claimed one, and fails exactly when its pair would pass 255 |
| RtspLifecycle.ProposalAccepted | rtsp/transport.go:156-168 | A proposed pair is one the client accepts when the server echoes it |
| RtspLifecycle.AcceptedIsApart | rtsp/setup.go:437-452 | A pair that passed the claimed-channel check shares no channel with any bound track |
| RtspLifecycle.InsertAdds | rtsp/setup.go:499-513 | Registering a track's sockets replaces nothing and adds exactly its pair |
| RtspVerbs.DescribeDoes | rtsp/describe.go:76-125 | A Describe the server accepts takes an idle client to described and changes nothing else; one that fails changes nothing |
| RtspVerbs.SetupTCPDoes | rtsp/setup.go:131-168 | Over TCP a Setup adds a track with exactly the channels assigned when they are acceptable, pins TCP and is set up; otherwise it adds nothing |
| RtspVerbs.SetupUDPDoes | rtsp/setup.go:187-280 | Over UDP, tried when pinned or when nothing is pinned and TCP is not preferred, it adds a track with the socket pair just opened, registers that pair and pins UDP |
| RtspVerbs.SetupUDPFails | rtsp/setup.go:187-280 | A UDP attempt that comes to nothing closes its pair and adds no track; a refusal goes on to TCP exactly when nothing is pinned and that fallback was asked for |
| RtspVerbs.PlayTCPDoes | rtsp/play.go:27-79 | Play over TCP starts the timer goroutine and no receiver |
| RtspVerbs.PlayUDPDoes | rtsp/play.go:27-133 | Play over UDP starts both receivers of every track that was set up, with the counts taken for them, and the timer |
| RtspVerbs.OutOfOrder | rtsp/client.go:620-635 | A verb changes nothing exactly when it is out of order, or sets up a track that is there |
| RtspVerbs.VerbsInOrder | rtsp/client.go:620-635 | In every run there are no tracks before Setup, and a playing client has tracks and has committed Play once |
| RtspVerbs.OthersApart | rtsp/client.go:446-475 | Shutdown, reader, receivers and timer change no verb in progress, track, transport, session or socket registration, and the phase only to closed |
| Supervisor.TransitionProtocol | supervisor/supervisor.go:241-298 | In every run the transitions given to OnState conform: attempts 1, 2, 3 from each Connected, delays in [0, Max], at most one terminal transition and it is the last; once Wait is released there is exactly one, and it is closed exactly when a shutdown settled the terminal error first |
| Supervisor.TerminalIsLast | supervisor/supervisor.go:335-364 | No transition of a conforming log but the last is terminal |
| Supervisor.EverySourceClosed | supervisor/supervisor.go:217-298 | Every source the Factory handed over is closed exactly once, in order, through panics in Factory, Retryable, Wait, Stats or Info; never two are open |
| Supervisor.ClosingCauseKnown | supervisor/supervisor.go:352-364 | The closing path always finds a recorded cause: its default is never used |
| Supervisor.FirstCauseSticks | supervisor/supervisor.go:437-446 | Once recorded the terminal error never changes |
| Supervisor.WaitsAgreeExactly | supervisor/supervisor.go:413-422 | All Wait calls return the error of the terminal transition, in every run, exactly when the policy never refuses a nil error |
| Supervisor.ShutdownDrains | supervisor/supervisor.go:200-298 | After a cancellation the supervising goroutine takes at most a fixed number of further steps of its own, wherever it was |
| Supervisor.NeverStuck | supervisor/supervisor.go:241-298 | Until it is gone some answer of its environment moves the goroutine on |
| SupervisorStory.StoryTold | supervisor/supervisor.go:241-311 | In every run each failed connect and ended session was put to the policy and each retry to the clock, and what OnState was told is the story those answers make up, complete but for a transition about to be announced, unless a shutdown settled the end first: then it is cut off there and followed by the one closing transition |
| SupervisorStory.FailedOnlyWhenRefused | supervisor/supervisor.go:257-297 | OnState hears Failed only with a panic or a cause the policy may refuse; by default that is Canceled, DeadlineExceeded, Closed, Redirect or a panic |
| SupervisorStory.TroubleIsJudged | supervisor/supervisor.go:508-519 | The verdict behind a failed connect or ended session is on that very cause, and the default one refuses exactly those four |
| SupervisorStory.RetriedReconnects | supervisor/supervisor.go:304-311 | After a failure or session end that is retried the next transition is Reconnecting with exactly that cause, one attempt more and the delay drawn; only a shutdown's closing transition can be in its place |
| SupervisorStory.AsksWhatIsDue | supervisor/supervisor.go:241-298 | Between two answers the goroutine takes at most ten steps of its own, and then asks exactly the question due or is gone |
| SupervisorStory.ShutdownBeginsNothing | supervisor/supervisor.go:244-296 | Once cancelled it takes in at most the answers left from where it is: a failure learned of afterwards is put to no policy and nothing is connected again |
| Backoff.WithDefaults | supervisor/backoff.go:49-70 | Every usable field is kept, every other replaced by its default or ceiling, and the result is a resolved schedule |
| Backoff.Delay | supervisor/backoff.go:84-110 | The loop computes the floor of the jittered, capped exponential, between 0 and Max |
| Backoff.Grow | supervisor/backoff.go:84-100 | Multiplying until the ceiling is reached gives min(Max, Base times Factor to the attempt minus one) |
| Backoff.JitteredRange | supervisor/backoff.go:84-110 | The jittered delay is positive and at most Max, never below the fraction 1 - Jitter of the capped value, and equal to it for a draw of one half |
| Backoff.CappedMonotone | supervisor/backoff.go:84-100 | The undisturbed delay never shrinks with the attempt and stays at Max once there |
| Adts.Parse | internal/adts/adts.go:86-136 | A parsed header lies in 7 bytes, with supported fields and 7 <= header length < frame length <= 8191 |
| Adts.AudioSpecificConfig | internal/adts/adts.go:146-149 | The two bytes hold the object type, rate index and channel configuration in 5, 4 and 4 bits |
| Adts.ParseStable | internal/adts/adts.go:86-136 | A header is decided by its first seven bytes |
| AdtsFramer.ScanADTS | internal/adtsframe/adtsframe.go:170-180 | The loop with its sync prefilter finds the first valid header |
| AdtsFramer.SessionExplains | internal/adtsframe/adtsframe.go:63-108 | On any bytes in any chunks the log and the leftover are the stream in order, and every discard was justified: no position is skipped untested unless inside a consumed frame; the leftover is at most 8197 bytes |
| AdtsFramer.BacklogBound | internal/adtsframe/adtsframe.go:152-164 | After a drain at most 8197 bytes are left |
| AdtsFramer.DeliveryTheorem | internal/adtsframe/adtsframe.go:63-108 | Valid, mutually consistent frames cut anywhere yield exactly the single-block frames in order; the multi-block frames are the only gaps and nothing is left |
| AdtsChunking.ChunkingExactly | internal/adtsframe/adtsframe.go:63-108 | The frames taken and their positions are the same for every way of cutting a stream into chunks if and only if every header that the whole stream rejects in sync is foreseen: the bytes disproving it were needed before to reject another header |
| AdtsChunking.KeptSyncIsForeseen | internal/adtsframe/adtsframe.go:81-91 | A stream on which no header is rejected in sync meets that condition |
| AdtsChunking.SyncNeedNotBeKept | internal/adtsframe/adtsframe.go:81-91 | A 30-byte stream that loses sync and is still cut the same in any chunks |
| AdtsFramer.DrainByNext | internal/adtsframe/adtsframe.go:63-108 | Calling NextFrame until it fails drains exactly |
| AdtsFramer.Stream.NextFrame | internal/adtsframe/adtsframe.go:63-108 | The next access unit with its header stripped and its duration, the new state exactly the reference's |
| AdtsFramer.Stream.Compact | internal/adtsframe/adtsframe.go:118-126 | Sliding the buffer changes nothing a caller can see |
| AdtsFramer.Stream.Finish | internal/adtsframe/adtsframe.go:133-137 | Charges a truncated final frame once |
| Mpeg.Parse | internal/mp3/mp3.go:109-155 | A parsed header has a positive rate and a frame length from 4 to 2881 bytes |
| Mpeg.FrameLenBound | internal/mp3/mp3.go:161-173 | No version, layer, bitrate and rate of the tables give a frame over 2881 bytes |
| Mp3Framer.ScanHeader | httpsource/mp3.go:223-233 | The loop with its sync prefilter finds the first valid header |
| Mp3Framer.DeliveryTheorem | httpsource/mp3.go:62-118 | Leading ID3v2 tags of any size, then consistent frames, then anything, cut anywhere: every frame is delivered in order before anything else; with nothing behind them they are all there is, with no gap and nothing left |
| Mp3Framer.SessionExplains | httpsource/mp3.go:62-162 | On any bytes in any chunks the log and the leftover are the stream in order; no position is skipped untested unless inside a frame or a tag, and tags end where their headers say; at most 2884 bytes are left however large a tag was |
| Mp3Framer.DrainByNext | httpsource/mp3.go:62-118 | Calling next until it fails drains exactly |
| Mp3Framer.Stream.NextFrame | httpsource/mp3.go:62-118 | The next whole frame and its duration, the new state exactly the reference's |
| Mp3Framer.Stream.ConsumeID3 | httpsource/mp3.go:123-132 | Skips as much of a pending tag as has arrived; false exactly while some is still to come |
| Mp3Framer.Stream.Finish | httpsource/mp3.go:166-170 | Charges a truncated final frame once |
| AudioHeaders.FrameLenMeans | internal/mp3/mp3.go:161-173 | The frame length is the whole slots in the bytes its samples take at its bit rate and sampling rate, and one more when padded; a slot is four bytes in Layer I and one otherwise |
| AudioHeaders.MpegReadsBack | internal/mp3/mp3.go:109-155 | A header written from any fields reads back as them, bit rate and sampling rate by the standard's tables, and is refused exactly when a field names nothing |
| AudioHeaders.AdtsReadsBack | internal/adts/adts.go:86-136 | An ADTS header written from any fields reads back as them, and is refused exactly when it names no sampling rate or channels or a frame no longer than itself |
| AudioHeaders.DurationsMean | internal/adtsframe/adtsframe.go:202-207 | A frame lasts the whole nanoseconds of its samples at its sampling rate, in either framer |
| Mp3Rtp.AggregateExact | depacket/mp3/mp3.go:138-191 | A packet of several whole frames returns exactly those frames in order |
| Mp3Rtp.RunExact | depacket/mp3/mp3.go:115-242 | Over any sequence of pieces, aggregates and Resets, with any loss, duplication and reordering, every frame returned is an original byte for byte |
| Mp3Rtp.LosslessDelivery | depacket/mp3/mp3.go:115-233 | In-order lossless delivery returns all the frames in order |
| Mp3Rtp.Depacketizer.Depacketize | depacket/mp3/mp3.go:115-132 | The object's step is the step on values |
| FlacRtp.Packetize | packet/flac/flac.go:53-71 | Appends the frame's fragments, or rejects a bad MTU or an empty frame leaving the list as it was |
| FlacRtp.FragmentsRejoin | packet/flac/flac.go:53-71 | The fragments rejoin to the frame, fit the MTU, fill it except the last, and only the last is marked |
| FlacRtp.RoundTrip | depacket/flac/flac.go:86-140 | Packetize then Depacketize is the identity for every frame up to the cap, every MTU and every state not mid-frame at that timestamp: buffered until the last packet |
| FlacRtp.NeverSplices | depacket/flac/flac.go:86-140 | Whatever arrives, a returned frame is the payloads of the latest packets up to a marker, all of one timestamp |
| FlacRtp.ContiguousWithResets | depacket/flac/flac.go:86-148 | With Reset called at each gap, a returned frame is a contiguous run of one frame's fragments ending at its marker |
| FlacRtp.WholeExactlyWithHead | depacket/flac/flac.go:86-140 | Of the fragments of a frame from the k-th on, met by an idle depacketizer, the last returns a frame, which is the whole one exactly when k is 0: a lost head truncates |
| FlacRtp.Depacketizer.Depacketize | depacket/flac/flac.go:86-140 | The object's step is the step on values |
| AacRtp.ParseOfPacked | depacket/aac/depacketize.go:21-97 | Parsing undoes packing for every accepted configuration and any representable list of at most 512 sizes |
| AacRtp.WholeUnits | depacket/aac/depacketize.go:110-202 | A packet of whole units returns them in order, unit i at i times the samples per frame |
| AacRtp.FragmentsReassemble | depacket/aac/depacketize.go:110-202 | A unit up to 64 KiB cut into any pieces with a non-empty last is reassembled exactly |
| AacRtp.ProcessBounded | depacket/aac/depacketize.go:110-202 | A partial unit is shorter than its declared size, which is within the cap, and any error abandons it |
| AacRtp.Depacketizer.ReadSizes | depacket/aac/depacketize.go:21-97 | The header loop reads exactly the sizes of the bit-string specification, or its error |
| AacRtp.Depacketizer.Depacketize | depacket/aac/depacketize.go:110-202 | The object's step is the step on values, and keeps the partial unit's bounds |
| LatmMux.MuxMore | depacket/latm/streammuxconfig.go:145-238 | A StreamMuxConfig that parses or is refused, other than for truncation, does so unchanged with any bits appended, leaving them |
| LatmMux.AscMore | depacket/latm/streammuxconfig.go:251-332 | The same for the AudioSpecificConfig |
| LatmBits.BlitBits | depacket/latm/streammuxconfig.go:57-81 | Copies a bit field left-justified and zero-padded into the destination, whose further bytes keep their values |
| LatmBits.ExtractBitsInto | depacket/latm/streammuxconfig.go:88-97 | Packs a bit field into the given array when it has room and into a fresh one otherwise, then leaving the given one alone |
| LatmBits.BitReader.Read | depacket/latm/streammuxconfig.go:18-38 | Reads the value of the next bits from any bit offset; on truncation the position stays |
| LatmBits.ReadASC | depacket/latm/streammuxconfig.go:251-332 | Parses as the bit-string specification of the bits left, so independently of the bit offset |
| LatmBits.ParseMuxBits | depacket/latm/streammuxconfig.go:145-238 | Same mux fields, config bytes and consumed bits as the bit-string specification of the bits left, from any bit offset |
| Latm.SlotsOfBits | depacket/latm/depacketize.go:10-30 | Slots read bit by bit from a shifted payload are the byte-aligned slots |
| Latm.InBandEqualsOutOfBand | depacket/latm/depacketize.go:223-281 | One in-band element with useSameStreamMux gives the units, offsets or error of the out-of-band parse of the same slots under the same config |
| Latm.InBandPacketExists | depacket/latm/depacketize.go:223-281 | Such a packet exists for any slots |
| Latm.Depacketizer.ApplySeed | depacket/latm/latm.go:168-180 | Installs the seed's config when there is one and it parses, and otherwise nothing |
| Latm.Depacketizer.Reset | depacket/latm/latm.go:198-217 | Back to exactly the seed's config in band, unchanged out of band; the active and the scratch array stay different |
| Latm.Depacketizer.AudioSpecificConfig | depacket/latm/latm.go:186-191 | The bytes of the retained config, or nothing before any |
| Latm.Depacketizer.InBandElementStep | depacket/latm/depacketize.go:223-281 | One element as specified: a config that fails to parse at any field leaves the retained config's bytes, and the two arrays stay different |
| Latm.Depacketizer.DepacketizeInBand | depacket/latm/depacketize.go:172-213 | All elements of an in-band payload as specified |
| Latm.Depacketizer.Depacketize | depacket/latm/depacketize.go:82-144 | One payload in either mode as specified, the double buffer kept |
| LatmOffsets.OffsetsFit | depacket/latm/depacketize.go:110-135 | Over any packets in either mode every unit's RTP offset stays below two to the 32, so the 32-bit sums never wrap |
| LatmOffsets.SeedIsSane | depacket/latm/latm.go:168-180 | Every config installed from configuration has at most 64 subframes of at most 1024 samples, which is where those bounds start |
| LatmWriter.AscReads | depacket/latm/streammuxconfig.go:251-332 | An AudioSpecificConfig written from its fields gives 960 samples a unit exactly for short frames and 1024 otherwise, or is refused exactly for an unsupported object type, channel configuration 0 or an extension |
| LatmWriter.MuxReadsBack | depacket/latm/streammuxconfig.go:145-238 | A StreamMuxConfig written from its fields, escapes, core coder delay, other data and CRC included, gives its subframes, config bytes and frame length and leaves exactly the bits behind it, or is refused for the first thing not supported |
| LatmWriter.ConfigReadsBack | depacket/latm/streammuxconfig.go:121-130 | The same as configuration bytes within the 512-byte cap |
| LatmWriter.SlotsReadBack | depacket/latm/depacketize.go:10-30 | Slots written with 255-continued lengths read back as their units, unit i at i times the frame length |
| LatmWriter.OutOfBandDelivers | depacket/latm/depacketize.go:82-144 | Out-of-band elements written one after the other, zero bytes behind, deliver their units with unit i of the packet at i frame lengths, up to empty units that nothing else follows |
| LatmWriter.OnlyEmptyLeftOff | depacket/latm/depacketize.go:110-144 | What is left off is only empty units at the end |
| LatmWriter.InBandDelivers | depacket/latm/depacketize.go:172-281 | In-band elements, each with its own configuration or the one in force, deliver their units at their frame lengths from whatever bit offset, and leave the last configuration in force |
| TsPacket.TsResync | hlssource/tsdemux.go:346-357 | Finds the first offset from which the sync byte recurs |
| TsDemux.DemuxBounded | hlssource/tsdemux.go:405-438 | On any segment the section buffers stay within 4097 bytes |
| TsDemux.PesFeeds | hlssource/tsdemux.go:181-212 | The parts of one PES packet feed its elementary-stream bytes, headers longer than the first part included, or nothing when the first part holds fewer than nine bytes: they feed exactly its bytes if and only if it holds nine or there are none to feed |
| TsDemux.DemuxInvertsMux | hlssource/tsdemux.go:78-212 | With the PIDs acquired, segments carrying any PES packets cut anywhere, with any adaptation, foreign and null packets, duplicates and repeated tables, feed without restart or loss the bytes of the PES packets whose first part holds nine bytes; that is all of the elementary stream if and only if no other has bytes to feed |
| TsDemux.OpensWithTables | hlssource/tsdemux.go:288-340 | Segments that open with a program association and a program map table leave any demultiplexer where one that already knew the PIDs would be |
| TsDemuxer.ReplayIsRounds | hlssource/tsdemux.go:216-232 | Feeding pieces drives the framer as its own rounds of chunks |
| TsDemuxer.EndToEnd | hlssource/tsdemux.go:78-250 | A new demultiplexer given segments that open with their tables and carry a muxed stream of valid frames delivers exactly its access units, the multi-block frames the only gaps, if and only if no PES packet with bytes to feed has its fixed header split |
| TsDemuxer.Demuxer.FeedFramer | hlssource/tsdemux.go:216-232 | Feeding delivers exactly what the new bytes complete, and records the config of the first unit ever |
| TsDemuxer.Demuxer.ResetContinuity | hlssource/tsdemux.go:258-264 | Flushes and replaces the framer, its gaps kept |
| TsDemuxer.Demuxer.HandlePES | hlssource/tsdemux.go:181-212 | The PES decisions on fields are those on values |
| TsDemuxer.Demuxer.HandlePacket | hlssource/tsdemux.go:110-175 | Routes one packet as on values, lost and duplicate packets included, for which TsLoss states what that is |
| TsDemuxer.Demuxer.DemuxSegment | hlssource/tsdemux.go:78-107 | Processes a segment as specified, with the units delivered and gaps charged those of the recorded actions |
| TsTables.PatMeans | hlssource/tsdemux.go:288-303 | Of a program association with any network entries and programs, the map of the first program is taken |
| TsTables.PmtMeans | hlssource/tsdemux.go:309-340 | Of a program map with any descriptors and streams the first AAC stream is found, and without one whether it has other audio |
| TsTables.MapHandled | hlssource/tsdemux.go:309-340 | Such a map sets the audio PID, and is refused exactly when it has only other audio and none was known |
| TsTables.SectionInPieces | hlssource/tsdemux.go:405-438 | A section sent in pieces is assembled by the piece that completes it and by none before |
| TsLoss.LossyRun | hlssource/tsdemux.go:141-173 | With any packets missing, those that arrive act as their parts do when each is taken knowing how many audio packets are missing before it |
| TsLoss.LossySegment | hlssource/tsdemux.go:78-107 | A segment with any packets missing charges exactly one loss and one restart for every hole of neither 0 nor 15 modulo 16 packets behind its first audio packet |
| TsLoss.HoleExactly | hlssource/tsdemux.go:154-169 | A hole of n audio packets with audio on both sides restarts the framer and charges one loss if and only if n is neither 0 nor 15 modulo 16; at 0 the bytes are spliced, at 15 those of the second packet behind it |
| TsLoss.HoleSeparates | hlssource/tsdemux.go:160-169 | Behind a detected hole everything goes on as with nothing pending and nothing known of the counters |
| TsLoss.DiscontinuityForgets | hlssource/tsdemux.go:270-277 | A segment marked discontinuous is demultiplexed as by a new demultiplexer, behind a restart |
| TsLoss.SpliceAnnounced | hlssource/tsdemux.go:123-131 | A packet that announces a splice restarts the framer without a loss, whatever its counter |
| TsLoss.StrayBetween | hlssource/tsdemux.go:89-101 | Stray bytes between packets are passed over, and the packets behind them handled as if next |
| TsSplice.RestartSeparates | hlssource/tsdemux.go:258-264 | A restart separates: what is delivered is what the framer ended there delivers and what a new one does with the rest |
| TsSplice.NoUnitSpliced | hlssource/tsdemux.go:216-264 | On any actions the bytes of every delivered unit were fed between two neighbouring restarts |
| TsSplice.HoleDelivers | hlssource/tsdemux.go:154-169 | Around a detected hole the units are those of the bytes before it, ended there, and those of the bytes behind it on their own, with one gap more |
| Fmp4.FindFirstChild | internal/mp4/mp4.go:100-161 | The first box of a type, or whether it is missing or the structure broken before it |
| Fmp4.FindAudioTraf | internal/mp4/mp4.go:619-649 | The first traf whose tfhd names the track |
| Fmp4.ParseTrun | internal/mp4/mp4.go:794-883 | The record loop delivers exactly the specified samples, its count checked by division |
| Fmp4.ParseTraf | internal/mp4/mp4.go:672-729 | The trun walk threads the data pointer as specified and stops at the first short or broken trun |
| Fmp4.TrunSound | internal/mp4/mp4.go:794-883 | The samples of one trun are adjacent non-empty slices of the fragment |
| Fmp4.FragmentSound | internal/mp4/mp4.go:573-616 | On any bytes every delivered sample is a non-empty slice of the fragment, and no more are delivered than it has bytes |
| Fmp4.TrunExact | internal/mp4/mp4.go:794-883 | A written trun with any of the four per-sample fields delivers its access units from where it says, or from where the last ended |
| Fmp4.RoundTrip | internal/mp4/mp4.go:573-616 | A fragment written from any samples, per-sample or default sizes and durations, over any number of truns, placed from the moof or an explicit base, among other boxes, tracks and their media, is sliced back into exactly them in order |
| Fmp4Cut.TrunCut | internal/mp4/mp4.go:794-883 | A trun whose data the fragment does not hold to the end delivers exactly the access units that are whole, and says that it ran short |
| HlsWindow.NumbersFit | hlssource/playlist.go:232-250 | No accepted playlist gives a segment number over 64 bits |
| HlsWindow.ConsecutiveExactly | hlssource/playlist.go:189-250 | An accepted playlist numbers its segments consecutively if and only if no two of its URI lines have different media sequences in effect |
| HlsWindow.SessionKept | hlssource/client.go:632-711 | Over any reloads of any playlists, closed or failed anywhere: processed numbers strictly increase; reported plus pending gaps are the losses charged, drops in full up to the integer cap; the demuxer is reset exactly for a marked segment or right behind a gap segment or window drop; the clock holds frames and gap segments only |
| HlsWindow.SessionAccounts | hlssource/client.go:632-671 | With consecutive playlists the advance of the last number is exactly fetched plus skipped plus missed |
| HlsWindow.NeverTwice | hlssource/client.go:632-671 | Increasing numbers never repeat, so no segment is fetched twice |
| HlsWindow.LiveSource.ProcessNewSegments | hlssource/client.go:632-671 | The loop over fields is the reload on values |
| HlsWindow.LiveSource.Process | hlssource/client.go:677-711 | One segment skipped, failed, or fetched and delivered, as on values |
| HlsWork.SessionDoes | hlssource/client.go:632-711 | Over any reloads a session skips, fetches and plays exactly what its playlists call for, in order, and every frame reports all losses charged before it |
| HlsWork.ReloadDoes | hlssource/client.go:632-711 | A reload skips each entry above all before it that is marked absent, fetches every other and plays all its frames, and does nothing behind a failure or a close |
| HlsWork.ConsecutiveDue | hlssource/client.go:632-671 | In a consecutive playlist that goes through, each entry above the last number is due once, whole |
| HlsWork.PlaylistReadsBack | hlssource/playlist.go:189-250 | A written playlist gives its segments back, numbered from its media sequence, each with its own duration and marks |
| PayloadTypes.AcceptedExactly | rtsp/pipeline.go:464-491 | A track accepts a packet exactly when its type is what the stream so far settles on: the declared type once seen, before that the first undeclared type to come five times in a row, and with nothing declared the first type of all |
| GapAccounting.GapsConserved | rtsp/reader.go:369-426 | Over any packets through any codec's own depacketizer, RTSP or UDP, resets at gaps and new senders included: gaps on frames plus the pending gap are the gaps counted since the last SSRC reset |
| GapAccounting.RtspAccounts | rtsp/pipeline.go:539-869 | Each of the nine RTSP paths, folding where it does and erring where its depacketizer does, accounts for a packet's gap, three of them if somebody listens |
| GapAccounting.UdpAccounts | udpsource/client.go:665-869 | Each of the UDP client's paths does, whoever listens |
| GapAccounting.ConservedExactly | rtsp/pipeline.go:675-759 | Conservation holds in every run if and only if the source is not an RTSP G.711, L16 or G.726 track without a callback |
| GapAccounting.FrameReportsAll | udpsource/client.go:588-869 | A packet that completes a frame leaves nothing unreported |
| FrameDelivery.ArrivalHandsOn | rtsp/reader.go:369-426 | An arrival of another type, or a duplicate on the UDP path, adds nothing; any other adds one frame for each unit its codec yields, in order, the first with all that was pending and the packet's gap, the others with none |
| FrameDelivery.AacNeverSplices | depacket/aac/depacketize.go:110-202 | A fragmented access unit that is completed is what the latest packets carried, each declaring its size, without a Reset among them |
| FrameDelivery.AacFrameWhole | rtsp/pipeline.go:539-565 | So through the sources: no completed AAC unit spans a reported gap or a new sender |
| Sources.Track.AcceptPayloadType | rtsp/pipeline.go:464-491 | The fields of the payload-type rule move as on values |
| Sources.Track.Process | rtsp/reader.go:369-426 | One packet through an RTSP track and its depacketizer object, as on values |
| Sources.Track.DeliverUnits | rtsp/pipeline.go:539-565 | The pending gap goes on the first frame of a packet and none on the rest |
| Sources.Track.DeliverL16 | rtsp/pipeline.go:709-737 | A payload that is not whole sample-frames keeps its gap only with a callback; otherwise the samples are turned around and delivered |
| Sources.Client.ProcessRTP | udpsource/client.go:588-645 | One packet through the UDP client, foreign types and duplicates dropped, as on values |
| LossyDelivery.Mp3OnlyOriginals | rtsp/pipeline.go:804-830 | Whatever packets of a sender's MPEG frames reach a track, in any order, with any gaps and new senders reported, every frame it completes is an original byte for byte |
| LossyDelivery.FlacNeverSplices | rtsp/pipeline.go:772-789 | Whatever packets reach a FLAC source, a completed frame is the payloads of the latest ones let through, of one timestamp, with no reported gap among them |
| LossyDelivery.FlacDeliversSuffix | rtsp/pipeline.go:772-789 | With every loss inside a frame reported, a completed frame is the sender's from some fragment on to its end |
| HttpAuth.SplitChallengeSegments | internal/httpauth/auth.go:170-198 | The loop with its two flags gives the segments between the commas outside quotes |
| HttpAuth.JoinOfSegments | internal/httpauth/auth.go:170-198 | Joining the segments with commas gives back any input |
| HttpAuth.SegmentsOfJoin | internal/httpauth/auth.go:170-198 | Pieces with closed quotes and no outer comma, joined with commas, are split back into themselves |
| HttpAuth.ParseAuthParamValue | internal/httpauth/auth.go:239-263 | The loop removes quotes and escapes as the recursive reading does, unterminated quotes included |
| HttpAuth.UnescapeEscape | internal/httpauth/auth.go:502-507 | Reading an escaped value up to its closing quote gives the value back, whatever follows |
| HttpAuth.ParseChallengeValue | internal/httpauth/auth.go:122-164 | The parser's loop adds to earlier challenges exactly those of the segments |
| HttpAuth.PrintParse | internal/httpauth/auth.go:122-164 | A printed offer of lower-case token names and any quoted values reads back as one challenge with exactly those params, CR and LF dropped, the last of a repeated name kept |
| HttpAuth.AnswerReadsBack | internal/httpauth/auth.go:411-477 | Every field of a Digest answer reads back from the header, and no other |
| HttpAuth.ServerVerifies | internal/httpauth/auth.go:411-477 | For values without CR and LF, the response printed is the one a server recomputes from the fields it reads, with or without qop, whatever the hash |
| HttpAuth.UsefulIffAnswerable | internal/httpauth/auth.go:312-321 | Given a client nonce, a challenge counts as usable exactly when Authorize answers it |
| HttpAuth.SelectChallenge | internal/httpauth/auth.go:276-306 | Picks the first of the strongest usable challenges, and fails exactly when none is usable |
| DigestAnswer.ResponseMeans | internal/httpauth/auth.go:426-427 | The hash inputs are the RFC's: username, realm and password; method and uri; and the response's own, with or without qop |
| DigestAnswer.AnswerMeetsServer | internal/httpauth/auth.go:411-477 | The answer carries the response a server computes from the RFC's text with the challenge's realm, nonce and hash, and states the client nonce and an eight-digit count that is the nonce count modulo two to the 32 |
| DigestAnswer.HexMeans | internal/httpauth/auth.go:451-451 | The count's digits are lower-case hex and denote its low bits |
| DigestAnswer.QopMeans | internal/httpauth/auth.go:326-333 | A list of qop options offers "auth" exactly when one of them is that word, in any case and with any white space |
| DigestAnswer.ChoiceMeans | internal/httpauth/auth.go:276-306 | The challenge selected is the first that can be answered with SHA-256, without one the first with MD5, without that the first Basic one |

## Left out

- Sockets, HTTP, TLS, DNS, timers and logging: bytes read, datagrams, replies and draws are inputs; nothing was executed.
- The RTP sequence tracker, reorderer and packet parser (rtsp/rtp) and the SDP parser are not part of this model; their verdicts are arbitrary inputs.
- RtspReader.Reader.ReadLoop: a Close from another goroutine between two units is not modelled there but in RtspLifecycle; what a track makes of a unit, and whether a reply could be written, are arbitrary functions of the history.
- RtspMessage.ParseHeaderLines: trimming considers ASCII white space only.
- RtspWriter.MarshalResponse: fields are written in the order given and as spelled, where the code sorts them by canonical name. The same holds for RtspWriter.MarshalRequest.
- RtspLifecycle.ClosedForGood: SDP, transport parsing, hole punching, keepalive and Receiver Report contents are left out; a session id is recorded or not, and the verbs' network round trips are arbitrary answers.
- Supervisor.EverySourceClosed: a source whose own Close panics, and runtime.Goexit in user code, are not modelled; neither are Stats and Info snapshots.
- Backoff.Delay: exact reals stand for 64-bit floats, so rounding is not modelled.
- Latm.Depacketizer.DepacketizeInBand: the reuse of the unit list and of the shared data buffer is on values, so aliasing between returned units is not modelled.
- AdtsFramer.Stream.NextFrame: the buffer is a sequence field, so the aliasing of returned frames with the buffer is not modelled; the same holds for Mp3Framer.Stream.NextFrame.
- TsDemuxer.Demuxer.DemuxSegment: the callback is a log of the units delivered.
- Fmp4.Parse: the initialization segment (moov, esds) is left out, and a callback that fails is not modelled.
- HlsWindow.LiveSource.ProcessNewSegments: fetching, the fMP4 re-initialisation and the pause between reloads are outcomes given from outside; durations and the pending gap are naturals, so a pending gap beyond 64 bits does not wrap.
- HlsWindow.NumbersFit: playlist text is given as classified lines; URI resolution, attributes, master playlists and EXTINF parsing are left out.
- Sources.Track.Process: presentation times, LATM codec updates and counters other than gaps are left out; the G.711 tables are any table of 256 samples, and the frames are a log, kept whether or not a callback is there to be handed them.
- HttpAuth.ParseChallengeValue: case folding and white space are ASCII only; the Basic credential, the hash functions and nonce generation are arbitrary functions or inputs.
- G.711 tables, Opus pass-through, WAV headers, PCM sources, the command-line tool and the test server would add only easy members.
