# CWIST models

A Dafny model of six parts of CWIST, with proofs about each. Where the code works by
changing things in place, the model is a class or a method with loops, proved against a
specification function; what the code is for is then proved about that function.

- **Multipart parser** (`MultipartMachine`, `Grammar`, `Buffered`, `Buffers`, `Parser`, `Cuts`,
  `Stream`, `Search`, `Data`, `Delimiter`, `Text`, `RoundTrip`, `Language`). `MultipartMachine` is
  the simple form: a machine that reads one byte at a time. `MultipartParser.Parser` is the real
  form: buffers, slices, a lookbehind array and a step back. The real form refines the simple one
  for every input and every way of cutting it, the simple one finds the first delimiter, and
  together they accept exactly the bodies that `MultipartText` spells out in literal bytes after
  section 5.1.1 of RFC 2046.
- **QUIC flow control** (`QuicWire`, `Varint`, `Credit`, `Rtt`, `FlowControl`, `Protocol`,
  `Amortised`). `QuicWire` is the wire format in the words of RFC 9000. The flow-control state is
  two classes, a credit the value they share, and the protocol lets a receiver, a peer and a
  lossy, duplicating, reordering channel take steps in any order. 64-bit wrap-around is written
  out everywhere.
- **Othello and Reversi** (`OthelloBoard`, `Rules`, `Law`, `Play`, `Search`, `Strategy`, `Game`).
  The rules on a board that is changed in place and in the words of the game, whole games, and
  alpha-beta search against plain minimax, whose value is what a side can force.
- **Stream adapter** (`StreamAdapter`, `StreamHistory`). The promise chains as a transition system
  in which any ready continuation may fire next, and what whole runs have delivered and reported.
- **Packet buffer chain** (`PbufChain`) and **HTTP framing** (`HttpFraming`, `HttpRequest`).

## What turned out differently

- The boundary search restarts without a failure table. It finds the first delimiter in every
  input if and only if each CR inside the delimiter begins a border of it
  (`MultipartDelimiter.FindsFirstDelimiterIff`); `MissesDelimiter` names the failing input.
  RFC 2046 boundaries contain no CR.
- A header line without a colon delivers part of its name if a buffer ends inside it and nothing
  otherwise. The callbacks of an accepted input are those of the uncut input if and only if no
  buffer ends inside such a name (`MultipartCuts.CutsShowIff`); `MultipartStream.CutShows` gives
  the failing run. For the comparison with the one-byte machine such names are left out once
  their line has reached its CR.
- `saturating_add` is documented to saturate. It does if and only if its increment is at most
  2^62 - 1; a larger one wraps (`QuicCredit.SaturatesIff`).
- An update can be due again at once if and only if consumed + window / 2 reaches 2^62 - 1
  (`QuicCredit.RepeatedIff`, `RepeatsForever`), and the bound on the number of frames holds exactly
  up to there
  (`QuicAmortised.FrameBoundIff`, `FrameBoundFails`).
- The limit is raised when a frame is written. If that frame is lost, a blocked peer gets no
  unforced update while more than half a window is left (`QuicProtocol.UnblocksIff`,
  `LostFrameStalls`).
- The round-trip estimator stays within the range of its samples, for all samples up to a limit,
  if and only if the limit is below 2^61 (`QuicRtt.SafeSampleIff`); two samples of 2^61 wrap.
- The 16-bit total of a packet chain is its length if and only if the chain is shorter than
  2^16 bytes (`PbufChain.FrameLengthIff`, `LongFrame`).
- `useSession` says it serializes against pending dispatches. Later dispatches wait for it; one
  that is already running does not keep it waiting (`StreamAdapter.AppliedBesideDispatch`).

## Model

| member | source | states |
|---|---|---|
| MultipartStream.Parse | lib/multipart-parser-c/multipart_parser.c:111-306 | For every boundary and every way of cutting an input into buffers: the final state and index and the absolute offset of the first rejected byte are those of the one-byte machine on the whole input; the merged callbacks are the machine's too, short of exactly the slice a rejection leaves undelivered; the trace is in the language; and for an accepted input the raw callbacks, with nothing dropped, are those of the uncut input if and only if no buffer ends in a header name whose line has no colon; where the boundary search is exact, the offset is that of the first byte with which no body goes on, and the input is accepted if and only if it is a body, both spelled out in literal bytes |
| MultipartStream.ReadAll | lib/multipart-parser-c/multipart_parser.c:111-306 | The buffers read in turn give exactly the callbacks, state, index and offset of the loop's turns over all of them, and nothing is read after a rejection |
| MultipartStream.ParseWritten | lib/multipart-parser-c/multipart_parser.c:80-306 | A body written from any list of good parts, with any epilogue, is read back from any buffers it arrives in: every byte consumed, state `s_end`, exactly the callbacks that describe the parts |
| MultipartLanguage.AcceptsIff | lib/multipart-parser-c/multipart_parser.c:117-305 | For every boundary whose search is exact, a boundary without CR among them, the parser consumes an input and ends in `s_end` if and only if it is, byte for byte: an opening line, parts with header lines of letters and hyphens, a colon, spaces and a value, a blank line, data up to the first end of part, line ends between parts, two hyphens, and anything after them |
| MultipartLanguage.AcceptedIsBody | lib/multipart-parser-c/multipart_parser.c:117-305 | The converse of the round trip: what is accepted can be taken apart into such parts |
| MultipartLanguage.ViableIff | lib/multipart-parser-c/multipart_parser.c:117-305 | An input is consumed whole if and only if some body begins with it |
| MultipartLanguage.RejectsExactly | lib/multipart-parser-c/multipart_parser.c:129-292 | The first rejected byte is the first with which no body goes on: every refusal of the switch is needed and none is missing |
| MultipartLanguage.NameByteAccepted | lib/multipart-parser-c/multipart_parser.c:156-173 | In the name states a byte is taken if and only if it is CR, a colon, a hyphen or an ASCII letter of either case |
| MultipartLanguage.EndsSomehow | lib/multipart-parser-c/multipart_parser.c:120-301 | From every state of the parser some continuation is accepted |
| MultipartStream.CutShows | lib/multipart-parser-c/multipart_parser.c:156-176 | A failing run for every boundary, from the initial state: the opening line and one byte of a name, cut, then the line end and whatever follows; the raw callbacks differ from those of the uncut input |
| MultipartCuts.CutsShowIff | lib/multipart-parser-c/multipart_parser.c:156-176 | For an accepted input the raw callbacks are those of the uncut input if and only if no buffer ends inside a header name whose next byte that is no name byte is a CR |
| MultipartCuts.PlayFlush | lib/multipart-parser-c/multipart_parser.c:174-233 | Reading to the end of a buffer is reading on and then delivering what is pending, in every state |
| MultipartCuts.PlayBeside | lib/multipart-parser-c/multipart_parser.c:117-303 | A run with cuts and a run without stay beside each other over the same bytes: level, or the first ahead by name bytes the second never delivers |
| MultipartCuts.FlushBeside | lib/multipart-parser-c/multipart_parser.c:174-175 | A buffer end keeps two runs level, except inside a name whose line has no colon, where it puts the cut run ahead for good |
| MultipartCuts.NamesMerged | lib/multipart-parser-c/multipart_parser.c:33-40 | Merging keeps the number of name bytes delivered |
| MultipartCuts.TurnLevel | lib/multipart-parser-c/multipart_parser.c:120-301 | One turn keeps level runs level, up to the CR that drops a name |
| MultipartCuts.TurnAhead | lib/multipart-parser-c/multipart_parser.c:120-301 | One turn never lets the uncut run catch up in name bytes |
| MultipartBuffers.PlayAllFollows | lib/multipart-parser-c/multipart_parser.c:111-306 | The loop over any buffers tracks the one-byte machine on their concatenation: state, index, rejected byte, callbacks |
| MultipartBuffers.PlayAllStops | lib/multipart-parser-c/multipart_parser.c:111-119 | Nothing happens after a rejection: the buffers that follow only add to what is left |
| MultipartMachine.RunOnAppend | lib/multipart-parser-c/multipart_parser.c:117-305 | The one-byte machine is compositional: reading two inputs in turn is reading their concatenation, and a rejection is final |
| MultipartParser.Parser.constructor | lib/multipart-parser-c/multipart_parser.c:80-97 | A new parser is valid, in `s_start` at index 0 with an empty trace |
| MultipartParser.Parser.Execute | lib/multipart-parser-c/multipart_parser.c:111-306 | One buffer, from any valid parser: exactly the callbacks in order, the state, the index and the consumed count of the loop's turns, at most 2 * len of them, with every array access in bounds and the trace kept in the language |
| MultipartParser.Parser.Loop | lib/multipart-parser-c/multipart_parser.c:117-305 | The loop with its step back terminates within 2 * len turns and makes exactly those turns |
| MultipartParser.Parser.Switch | lib/multipart-parser-c/multipart_parser.c:120-301 | The switch does what the buffered step function says in every state, with the callbacks recorded in order |
| MultipartParser.Parser.FallThrough | lib/multipart-parser-c/multipart_parser.c:121-127 | The four cases that fall through (start, name start, value start, data start) leave the state the next case expects |
| MultipartParser.Parser.ReadPreamble | lib/multipart-parser-c/multipart_parser.c:127-148 | The first boundary line: each byte matched at `index`, then CR, then LF and `part_data_begin`; any other byte is refused |
| MultipartParser.Parser.ReadField | lib/multipart-parser-c/multipart_parser.c:156-176 | A header name: CR, colon, name byte (delivered if it is the last of the buffer) or refusal |
| MultipartParser.Parser.ReadValue | lib/multipart-parser-c/multipart_parser.c:197-206 | A header value: delivered at CR or at the end of the buffer |
| MultipartParser.Parser.ReadData | lib/multipart-parser-c/multipart_parser.c:223-234 | Part data: delivered at CR, which is kept in the lookbehind, or at the end of the buffer |
| MultipartParser.Parser.ReadAlmostBoundary | lib/multipart-parser-c/multipart_parser.c:236-247 | After the CR: LF is kept back too, anything else gives the CR back as data and reads the byte again |
| MultipartParser.Parser.ReadBoundary | lib/multipart-parser-c/multipart_parser.c:249-262 | A boundary byte is kept back and the last one ends the part; a mismatch gives back exactly the `2 + index` kept bytes and reads the byte again |
| MultipartParser.Parser.GiveBack | lib/multipart-parser-c/multipart_parser.c:244-255 | The lookbehind slice that is delivered is exactly the bytes held back |
| MultipartParser.Parser.KeepBack | lib/multipart-parser-c/multipart_parser.c:238-257 | A byte stored in the lookbehind stays in bounds and keeps what is stored there equal to the prefix of the delimiter read so far |
| MultipartParser.Parser.ReadAlmostEnd | lib/multipart-parser-c/multipart_parser.c:264-274 | After a boundary: a hyphen, CR, or refusal |
| MultipartParser.Parser.ReadFinalHyphen | lib/multipart-parser-c/multipart_parser.c:276-283 | The second hyphen gives `body_end` and the final state |
| MultipartParser.Parser.ReadPartDataEnd | lib/multipart-parser-c/multipart_parser.c:285-292 | LF begins the next part |
| MultipartParser.Parser.NotBroken | lib/multipart-parser-c/multipart_parser.c:24-40 | The trace of a valid parser is in the language of traces |
| MultipartBuffered.TurnFollows | lib/multipart-parser-c/multipart_parser.c:120-301 | One turn of the buffered loop agrees with one step of the one-byte machine up to the slice still pending in the buffer, in every state, for every byte, whether or not it is the buffer's last |
| MultipartBuffered.PlayFollows | lib/multipart-parser-c/multipart_parser.c:117-305 | The loop over a buffer refines the one-byte machine: level with it at the buffer's end, and short of exactly the undelivered slice when a byte is rejected |
| MultipartBuffered.PlayInOrder | lib/multipart-parser-c/multipart_parser.c:117-305 | The loop keeps the callbacks in the language of traces |
| MultipartBuffered.TurnInOrder | lib/multipart-parser-c/multipart_parser.c:120-301 | So does each of its turns, at the place the state says |
| MultipartBuffered.AgainOnlyOnce | lib/multipart-parser-c/multipart_parser.c:236-256 | A byte is read again only after a false match and then as plain data, which is never read again: the measure behind termination |
| MultipartBuffered.LagsNothing | lib/multipart-parser-c/multipart_parser.c:174-233 | With nothing pending, lagging behind the machine is being level with it |
| MultipartBuffered.CollectFollows | lib/multipart-parser-c/multipart_parser.c:174-175 | Collecting a byte, or delivering the slice because the buffer ends, keeps level with the byte-by-byte log |
| MultipartBuffered.DeliverFollows | lib/multipart-parser-c/multipart_parser.c:163-227 | A slice cut by its own terminator is the bytes collected one by one |
| MultipartGrammar.PrefixInLanguage | lib/multipart-parser-c/multipart_parser.c:121-296 | The language of traces is closed under prefixes and nothing follows `body_end` |
| MultipartGrammar.MergedIsStrict | lib/multipart-parser-c/multipart_parser.c:121-296 | Merging any trace of the language gives the strict language: one name and one value per header line, at most one run of data per part, notifications in order |
| MultipartGrammar.LogFitsAfter | lib/multipart-parser-c/multipart_parser.c:24-40 | Each callback keeps the strict form of the merged log |
| MultipartSearch.RestartExact | lib/multipart-parser-c/multipart_parser.c:216-262 | Restarting a match without a failure table finds the first occurrence in every input if and only if every later occurrence of the pattern's head byte begins a border of the pattern |
| MultipartSearch.RestartableFinds | lib/multipart-parser-c/multipart_parser.c:236-262 | Under that condition the search stops at the first occurrence and only there, for all inputs |
| MultipartSearch.ScanFrom | lib/multipart-parser-c/multipart_parser.c:236-262 | Resumed in the middle of an input the search still locates the first occurrence of the whole |
| MultipartSearch.NothingLost | lib/multipart-parser-c/multipart_parser.c:244-255 | After a false match no suffix longer than the last byte can still begin an occurrence |
| MultipartSearch.LongestStep | lib/multipart-parser-c/multipart_parser.c:249-262 | The number of held bytes is always the length of the longest suffix of the input that may begin the delimiter |
| MultipartSearch.AbsentStep | lib/multipart-parser-c/multipart_parser.c:257-260 | While nothing was found, a byte completes the delimiter exactly if the search says so |
| MultipartSearch.MissesOne | lib/multipart-parser-c/multipart_parser.c:251-256 | Otherwise there is an input that contains the pattern and is searched in vain |
| MultipartSearch.CrFreeRestartable | lib/multipart-parser-c/multipart_parser.c:216-262 | A boundary without CR meets the condition |
| MultipartData.DeliversUpToFirst | lib/multipart-parser-c/multipart_parser.c:216-262 | A part's data is the input up to the first CRLF + boundary, all of it and nothing else, and reading goes on right after it |
| MultipartData.DeliversAllButHeld | lib/multipart-parser-c/multipart_parser.c:216-262 | While no delimiter has come, what was delivered followed by the held bytes is the input since the data began, and the held bytes are the longest possible beginning of a delimiter |
| MultipartData.DataRun | lib/multipart-parser-c/multipart_parser.c:223-262 | The data states of the machine do on every input what the search says |
| MultipartData.MatchStep | lib/multipart-parser-c/multipart_parser.c:236-262 | A matching byte moves one byte from the data to the held bytes, delivering nothing |
| MultipartData.BreakStep | lib/multipart-parser-c/multipart_parser.c:244-255 | A mismatch delivers all held bytes, and the byte itself is data or a new CR |
| MultipartData.LastStep | lib/multipart-parser-c/multipart_parser.c:257-260 | The last delimiter byte ends the part with the data before the delimiter |
| MultipartDelimiter.FindsFirstDelimiterIff | lib/multipart-parser-c/multipart_parser.c:216-262 | The parser ends the first part of every input at its first delimiter if and only if each CR inside the delimiter begins a border of it, and then every part after any log; in particular for every boundary without CR |
| MultipartDelimiter.MissesDelimiter | lib/multipart-parser-c/multipart_parser.c:249-256 | Otherwise, from the initial state: after the opening, the delimiter cut off before that CR and followed by the whole delimiter is read as data to its end, and its first delimiter does not end the part |
| MultipartDelimiter.RestartableEnds | lib/multipart-parser-c/multipart_parser.c:216-262 | Under the condition every part ends at its first delimiter with the data before it, whatever came before |
| MultipartRoundTrip.RoundTrip | lib/multipart-parser-c/multipart_parser.c:111-306 | Writing any list of parts in literal bytes, as section 5.1.1 of RFC 2046 describes, and reading it gives the same headers and data in order, ends in `s_end` and consumes every byte, epilogue included |
| MultipartRoundTrip.PartsRun | lib/multipart-parser-c/multipart_parser.c:150-296 | The same for the parts alone, from any earlier log |
| MultipartRoundTrip.PartRun | lib/multipart-parser-c/multipart_parser.c:150-262 | One part from its first header to the delimiter that ends it |
| MultipartRoundTrip.HeadersRun | lib/multipart-parser-c/multipart_parser.c:150-214 | A block of header lines gives one name and one value each, in order |
| MultipartRoundTrip.HeaderRun | lib/multipart-parser-c/multipart_parser.c:150-214 | One header line |
| MultipartRoundTrip.StrayRun | lib/multipart-parser-c/multipart_parser.c:156-185 | A last line of name bytes without a colon is read as the blank line and leaves no trace in the merged log |
| MultipartRoundTrip.NameByteIff | lib/multipart-parser-c/multipart_parser.c:169-170 | `tolower` and the range test accept the hyphen and the letters 65-90 and 97-122 |
| MultipartRoundTrip.DataPartRun | lib/multipart-parser-c/multipart_parser.c:216-262 | Data followed by its delimiter is delivered whole |
| MultipartRoundTrip.OpeningRun | lib/multipart-parser-c/multipart_parser.c:121-148 | The first boundary line |
| MultipartRoundTrip.EpilogueRun | lib/multipart-parser-c/multipart_parser.c:294-296 | Anything after the close is consumed without a callback |
| MultipartRoundTrip.PlainDataIsGood | lib/multipart-parser-c/multipart_parser.c:216-262 | For a boundary without CR, data that does not contain the delimiter is never misread, not even together with the delimiter that follows it |
| QuicVarint.ShortestSize | src/net/quic_flow_control.c:36-41 | The size chosen is the shortest of 1, 2, 4 and 8 bytes that holds the value |
| QuicVarint.CapacityValues | src/net/quic_flow_control.c:36-41 | The capacities are the thresholds 0x40, 0x4000, 0x40000000 and 2^62 |
| QuicVarint.WriteVarint | src/net/quic_flow_control.c:54-60 | The bytes written at the offset are the varint of section 16 of RFC 9000: two high bits with the logarithm of the length, the rest the value by powers of 256; no other byte of the buffer changes |
| QuicVarint.ParseVarint | scripts/ci/webtransport_e2e.py:73-78 | The loop reads two to the power of the first byte's two high bits bytes, or as many as there are, and returns their sum by powers of 256 without those bits, and the offset after them |
| QuicVarint.VarintWritten | src/net/quic_flow_control.c:54-60 | What is written for a value that fits is the standard's varint of that value |
| QuicVarint.VarintRead | scripts/ci/webtransport_e2e.py:73-78 | A varint of the standard is read back wherever it stands |
| QuicVarint.BigEndianWeighted | src/net/quic_flow_control.c:54-60 | Big-endian bytes of a value that fits leave the two length bits free and add up to the value by their weights |
| QuicVarint.VarintRoundTrip | src/net/quic_flow_control.c:36-60 | Decoding with the peer's decoder what was encoded is the identity for every value below 2^62, anywhere in a buffer |
| QuicVarint.WriteMaxStreamData | src/net/quic_flow_control.c:325-331 | The frame writer puts type, stream id and limit in `written` bytes and leaves the rest of the buffer alone |
| QuicVarint.WriteMaxData | src/net/quic_flow_control.c:281-284 | The same for a MAX_DATA frame |
| QuicVarint.FrameWritten | src/net/quic_flow_control.c:268-333 | An encoded frame is the frame of sections 19.9 and 19.10 of RFC 9000: a first byte 0x10 or 0x11 and its varints |
| QuicVarint.FrameRead | scripts/ci/webtransport_e2e.py:73-78 | A frame in that format decodes to its type, id and limit, whatever follows |
| QuicVarint.FrameRoundTrip | src/net/quic_flow_control.c:268-333 | An emitted MAX_DATA or MAX_STREAM_DATA frame decodes to exactly its type, id and limit in its own length, whatever follows |
| QuicCredit.AddSaturates | src/net/quic_flow_control.c:26-28 | Between varints the addition is exact or saturates at 2^62 - 1 |
| QuicCredit.AddWraps | src/net/quic_flow_control.c:26-28 | For a larger increment the result leaves the promised range or wraps |
| QuicCredit.ClampIs | src/net/quic_flow_control.c:14-17 | A window is at least one mebibyte and otherwise as asked for |
| QuicCredit.SaturatesIff | src/net/quic_flow_control.c:19-28 | The documented saturation holds if and only if the increment is at most 2^62 - 1; with the largest increment the counter even goes down by one |
| QuicCredit.ConsumeSound | src/net/quic_flow_control.c:230-248 | Consuming keeps every credit sound and saturates the counter |
| QuicCredit.GrowSound | src/net/quic_flow_control.c:206-219 | Growing keeps every credit sound; the window doubles up to its maximum and does not wrap |
| QuicCredit.ClampNeverFires | src/net/quic_flow_control.c:277-278 | In every sound credit the clamp has nothing to do: the new limit is min(consumed + window, 2^62 - 1) and never below the old one |
| QuicCredit.DueExact | src/net/quic_flow_control.c:73-75 | In every sound credit the sum does not wrap, and the two conditions are one: half a window or less is left |
| QuicCredit.CreditLeft | src/net/quic_flow_control.c:268-287 | After a call that returns 0 or 1, more than half a window is left or the limit is 2^62 - 1 |
| QuicCredit.RepeatedIff | src/net/quic_flow_control.c:268-287 | An update is due again at once if and only if consumed + window / 2 reaches 2^62 - 1 |
| QuicCredit.RepeatsForever | src/net/quic_flow_control.c:268-287 | A sound credit on which an update is due again after every update: 2^62 - 1 bytes are consumed |
| QuicRtt.SampleExact | src/net/quic_flow_control.c:158-161 | For samples below 2^61 no product or sum leaves 64 bits, so the smoothing is exact integer arithmetic |
| QuicRtt.FirstSample | src/net/quic_flow_control.c:152-156 | The first sample is taken as it is, with half of it as its variation |
| QuicRtt.QualityIs | src/net/quic_flow_control.c:182-189 | The classes by their limits of 50, 150 and 500 milliseconds; windows grow exactly above 150 |
| QuicRtt.SafeSampleIff | src/net/quic_flow_control.c:158-161 | The bounds hold for all samples up to a limit if and only if the limit is below 2^61 |
| QuicRtt.TwoSamplesWrap | src/net/quic_flow_control.c:161-161 | Two samples of 2^61 wrap the sum and leave srtt at zero |
| QuicRtt.EstimatorBounds | src/net/quic_flow_control.c:147-166 | For every non-empty sequence of non-zero samples below 2^61: min_rtt is their minimum, min <= srtt <= max, rttvar <= max |
| QuicRtt.WithinStep | src/net/quic_flow_control.c:147-166 | One sample inside a range keeps the estimate inside it |
| QuicRtt.MovesCloser | src/net/quic_flow_control.c:161-161 | A repeated sample s moves srtt strictly towards s until it lies in [s - 7, s], where it stays |
| QuicRtt.Approaches | src/net/quic_flow_control.c:147-166 | n equal samples bring the estimator's srtt at least n closer, or settle it |
| QuicRtt.Settles | src/net/quic_flow_control.c:147-166 | Under a constant sample the estimator's srtt ends exactly at s when it came from above and within 7 below it when it came from below |
| QuicFlowControl.ConnFlow.constructor | src/net/quic_flow_control.c:90-112 | Every window is clamped, each maximum raised to its initial value, the credit starts sound |
| QuicFlowControl.StreamFlow.constructor | src/net/quic_flow_control.c:124-134 | The stream's credit starts at the clamped window and is sound |
| QuicFlowControl.ConnFlow.UpdateRtt | src/net/quic_flow_control.c:147-166 | A zero sample changes nothing; any other updates the estimator and then the quality |
| QuicFlowControl.ConnFlow.EvaluateQuality | src/net/quic_flow_control.c:179-192 | Without a sample the answer is normal and the stored quality stays; otherwise it is the class of srtt |
| QuicFlowControl.ConnFlow.AdjustWindows | src/net/quic_flow_control.c:206-219 | Only at high RTT or worse both windows grow; the stream may be absent |
| QuicFlowControl.ConnFlow.ConsumeBytes | src/net/quic_flow_control.c:230-232 | The connection's counter grows as the credit says and nothing else changes |
| QuicFlowControl.StreamFlow.ConsumeBytes | src/net/quic_flow_control.c:245-248 | The stream's counter grows as the credit says |
| QuicFlowControl.ConnFlow.MaybeSendMaxData | src/net/quic_flow_control.c:268-287 | All three return codes with their exact conditions; on 1 the buffer starts with the standard's frame for the new limit and the limit is raised, otherwise nothing changes |
| QuicFlowControl.StreamFlow.MaybeSendMaxStreamData | src/net/quic_flow_control.c:308-333 | The same for a stream |
| QuicProtocol.StepKeeps | src/net/quic_flow_control.c:206-333 | Every step of receiver, peer and channel keeps: consumed <= sent <= peer limit <= limit <= consumed + window <= consumed + maximum, for the connection and each stream; every frame on the channel promises no more than its credit; the connection's bytes are the streams' bytes |
| QuicProtocol.RunKeeps | src/net/quic_flow_control.c:206-333 | The same over whole runs, with every limit never taken back |
| QuicProtocol.StepGrows | src/net/quic_flow_control.c:268-287 | No step lowers an advertised limit |
| QuicProtocol.NeverOverrun | src/net/quic_flow_control.c:90-333 | In every run over a channel that may lose, duplicate and reorder frames, the bytes not yet consumed never exceed the maximum window, on the connection and on each stream (section 4.1 of RFC 9000) |
| QuicProtocol.UnblocksIff | src/net/quic_flow_control.c:268-287 | A peer that is blocked because frames were lost is let go by a call with room for its frame if and only if the counter is below 2^62 - 1 and the call is forced or at most half a window of the advertised limit is left |
| QuicProtocol.UnblocksStreamIff | src/net/quic_flow_control.c:308-333 | The same for a stream |
| QuicProtocol.RunAccounts | src/net/quic_flow_control.c:206-232 | Over any run the connection's sent and consumed counters are the sums of the run's steps, and its window is doubled once for each adjustment, up to its maximum |
| QuicProtocol.RunAccountsStream | src/net/quic_flow_control.c:206-248 | The same for each stream |
| QuicProtocol.LostFrameStalls | src/net/quic_flow_control.c:268-287 | A run in which one lost frame blocks the peer: no unforced call changes anything any more, every forced one with room unblocks it |
| QuicProtocol.ConsumesConnKeeps | src/net/quic_flow_control.c:230-232 | Accounting for arrived bytes on the connection keeps the invariant, whatever the streams have accounted for |
| QuicProtocol.ConsumesStreamKeeps | src/net/quic_flow_control.c:245-248 | Accounting for arrived bytes on a stream keeps the invariant, whatever the connection has accounted for |
| QuicProtocol.AdjustsKeeps | src/net/quic_flow_control.c:206-219 | Growing the windows keeps the invariant |
| QuicProtocol.AdvertisesKeeps | src/net/quic_flow_control.c:268-287 | Advertising the connection's limit keeps the invariant |
| QuicProtocol.AdvertisesStreamKeeps | src/net/quic_flow_control.c:308-333 | Advertising a stream's limit keeps the invariant |
| QuicProtocol.DeliversKeeps | src/net/quic_flow_control.c:268-333 | A frame arriving at any time, however old, keeps the invariant |
| QuicProtocol.PeerSendsKeeps | src/net/quic_flow_control.c:268-333 | A peer that honours the largest limits it decoded keeps the invariant |
| QuicAmortised.FrameBoundIff | src/net/quic_flow_control.c:206-287 | After any calls, the unforced frames number at most the effective doublings plus floor(consumed / ceil(window / 2)), however often one is asked for, if and only if consumed + window / 2 is below 2^62 - 1 |
| QuicAmortised.FrameBound | src/net/quic_flow_control.c:206-287 | The bound itself, for every sequence of calls up to that guard |
| QuicAmortised.PaidAll | src/net/quic_flow_control.c:206-287 | The potential behind it: each frame is paid for by a doubling or by half a window consumed since the frame before |
| QuicAmortised.PaidSend | src/net/quic_flow_control.c:73-75 | An unforced frame with an unchanged window comes half a window after the last limit |
| QuicAmortised.SaturatedRepeats | src/net/quic_flow_control.c:268-287 | Past the guard any number of calls in a row each send a frame |
| QuicAmortised.FrameBoundFails | src/net/quic_flow_control.c:268-287 | An input past the guard: once 2^62 - 1 bytes are consumed, asking often enough breaks the bound |
| QuicAmortised.WindowAfter | src/net/quic_flow_control.c:206-219 | After k adjustments at high RTT or worse the window is min(maximum, initial * 2^k), and so for the effective doublings alone |
| OthelloBoard.InTurnIsAtOnce | example/othello-web/script.js:161-178 | Flipping the directions one after another on the board being changed equals flipping all bracketed runs of the original board at once |
| OthelloBoard.RaysAreDisjoint | example/othello-web/script.js:21-29 | Two of the eight directions never share a cell |
| OthelloBoard.LaterRayUntouched | example/othello-web/script.js:161-178 | What earlier directions flip is not on a later ray |
| OthelloBoard.RunDependsOnRay | example/othello-web/script.js:105-109 | Only the cells of a ray decide its run |
| OthelloLaw.MoveIsLaw | example/othello-web/script.js:144-183 | Outside the opening a move takes its cell and every line of hostile discs that ends at an own one, in the words of the game, and changes no other cell |
| OthelloLaw.OpeningMoveIsLaw | example/othello-web/script.js:147-158 | In the opening of Reversi a move takes its cell and changes no other |
| OthelloLaw.ValidIsLaw | example/othello-web/script.js:88-118 | A cell may be played if and only if it is empty and, in the opening, in the centre, or else captures a line |
| OthelloLaw.FlipLengthIff | example/othello-web/script.js:105-115 | The discs flipped in a direction are exactly those between the move and the next own disc |
| OthelloLaw.MovesInOrder | example/othello-web/script.js:77-85 | The moves come row by row and from left to right |
| OthelloRules.ValidIffFlips | example/othello-web/script.js:88-118 | Outside the opening a move on an empty cell is valid if and only if it turns a disc over |
| OthelloRules.MoveCounts | example/othello-web/script.js:144-183 | The mover gains one disc and the flips, the opponent loses the flips, the total grows by exactly one |
| OthelloRules.MoveFlipsAtOnce | example/othello-web/script.js:144-183 | A move outside the opening gives the board with every bracketed run turned over at once |
| OthelloRules.CountInTurn | example/othello-web/script.js:161-178 | Flipping moves exactly the flipped discs from one count to the other |
| OthelloRules.MovesAreAll | example/othello-web/script.js:77-85 | Every valid cell is among the moves |
| OthelloRules.NoMovesIff | example/othello-web/script.js:61-86 | A player has no move if and only if no cell is valid |
| OthelloPlay.SetupMoves | example/othello-web/script.js:63-75 | In the opening the valid cells, row by row, are the empty cells of the centre in the order listed |
| OthelloPlay.Board.CountPieces | example/othello-web/script.js:214-224 | Both counts are the numbers of discs on the board |
| OthelloPlay.Board.Scan | example/othello-web/script.js:102-115 | The loop along a direction finds exactly the run of the opponent's discs and whether one of the player's own closes it |
| OthelloPlay.Board.IsValidMove | example/othello-web/script.js:88-118 | The answer is validity, in the opening and after it |
| OthelloPlay.Board.ValidMoves | example/othello-web/script.js:61-86 | The list is the valid cells in row order, in the opening too |
| OthelloPlay.Board.ApplyMove | example/othello-web/script.js:144-183 | The board in place becomes the board after the move; no flips while at most four discs lie on a Reversi board |
| OthelloPlay.Board.FlipDirections | example/othello-web/script.js:161-178 | The eight directions are flipped in turn on the changing board |
| OthelloPlay.Board.FlipDirection | example/othello-web/script.js:162-177 | One direction: the bracketed run is turned over, or nothing |
| OthelloPlay.Board.Take | example/othello-web/script.js:174-176 | Writing the cells of a path takes exactly the first cells of that ray |
| OthelloSearch.EvaluateBoard | example/othello-web/script.js:330-339 | The score is the weight of White's cells less that of Black's, for any weights |
| OthelloSearch.Minimax | example/othello-web/script.js:293-328 | Alpha-beta against plain minimax for any depth, weights and window: a result strictly inside the window is the plain value, one at or below alpha bounds it from above, one at or above beta from below; passes included |
| OthelloSearch.Maximize | example/othello-web/script.js:306-316 | The maximizing loop with its cut |
| OthelloSearch.Minimize | example/othello-web/script.js:317-327 | The minimizing loop with its cut |
| OthelloSearch.MaxCut | example/othello-web/script.js:313-313 | The moves not looked at after a cut cannot bring the result back below beta |
| OthelloSearch.MinCut | example/othello-web/script.js:324-324 | The moves not looked at after a cut cannot bring the result back above alpha |
| OthelloSearch.MaxNext | example/othello-web/script.js:310-312 | One more move keeps the loop's best value in its relation to the exact maximum so far |
| OthelloSearch.MinNext | example/othello-web/script.js:321-323 | One more move keeps the loop's best value in its relation to the exact minimum so far |
| OthelloSearch.BestMove | example/othello-web/script.js:277-291 | The first move of largest plain minimax value |
| OthelloStrategy.PlainIff | example/othello-web/script.js:293-328 | The depth-limited value is at least v if and only if White has a strategy under which every line of that depth, the sides taking turns and passing only without a move, ends at a score of at least v; and the same for Black with at most v |
| OthelloStrategy.MoveValueIff | example/othello-web/script.js:281-288 | A move of the best-move search is worth exactly what can be forced after it with the other side to move |
| OthelloStrategy.BestForces | example/othello-web/script.js:293-328 | Playing by the values, a side never ends worse than the value, whatever the replies |
| OthelloStrategy.Meet | example/othello-web/script.js:293-328 | Any two strategies meet in a line of play |
| OthelloStrategy.ScorePut | example/othello-web/script.js:330-339 | Changing one cell changes the score by what it is worth: a White disc adds its weight, a Black one takes it off, turning one over changes it by twice the weight |
| OthelloStrategy.ScoreEmpty | example/othello-web/script.js:330-339 | An empty board scores nothing |
| OthelloGame.EveryGameEnds | example/othello-web/script.js:31-262 | At most 60 placements follow an Othello start and 64 a Reversi start, no more passes than placements; while the game is active a placement is possible, and once it is over neither side has a move |
| OthelloGame.PassesAreApart | example/othello-web/script.js:185-212 | Between two passes there is a placement: each placement brings at most one pass, and after a pass the player at the turn can move |
| OthelloGame.RunKeeps | example/othello-web/script.js:120-212 | Over any run of placements: an active game has a move for its player, the discs grow by one each, the passes by at most one each |
| OthelloGame.TurnKept | example/othello-web/script.js:185-212 | After a placement the game is with a player who can move, or over because nobody can |
| OthelloGame.TurnAfter | example/othello-web/script.js:185-212 | After a placement the other side has the turn if it can move, else the same side, else the game is over; a pass is counted exactly in the second case |
| OthelloGame.FirstGridIs | example/othello-web/script.js:31-41 | The first positions, cell by cell |
| OthelloGame.OpeningKept | example/othello-web/script.js:61-86 | The opening of Reversi alternates in the centre and never passes |
| OthelloGame.ReversiOpening | example/othello-web/script.js:144-160 | The first four Reversi placements fill the centre 2x2 with two discs of each colour and touch nothing else |
| OthelloGame.FirstOk | example/othello-web/script.js:31-51 | The first position of both modes has a move for Black |
| OthelloGame.BoardHolds | example/othello-web/script.js:214-224 | A board holds at most 64 discs |
| OthelloGame.Game.constructor | example/othello-web/script.js:31-51 | A new game is the first position of its mode, Black to move |
| OthelloGame.Game.CheckTurnOf | example/othello-web/script.js:185-212 | The next player keeps the turn, is passed over, or the game ends |
| OthelloGame.Game.MakeMoveLocal | example/othello-web/script.js:120-142 | A click is a placement if it is Black's turn in an active game and the move is valid; otherwise nothing changes |
| OthelloGame.Game.BotTurn | example/othello-web/script.js:244-262 | The bot makes a legal placement if it has one, and nothing changes if the game is over or it has none |
| OthelloGame.Game.ChooseMove | example/othello-web/script.js:249-257 | Easy picks some move, medium the heaviest cell, hard the best reply three plies deep |
| OthelloGame.Game.HeuristicMove | example/othello-web/script.js:264-275 | The first move on a cell of largest weight |
| StreamAdapter.Serialized | wasm/npm/component.js:51-162 | In every run: at most one dispatchStream is in flight, dispatches start in call order, no chunk reaches another call's callback, and a call whose callback failed settles with that very error |
| StreamHistory.EveryChunkArrives | wasm/npm/component.js:56-59 | In every run each callback is given exactly the chunks its own dispatch sent, in order |
| StreamHistory.EveryCallIsTold | wasm/npm/component.js:67-80 | In every run a call that ran settles with the last error of its own callback, or else with the very outcome of its dispatch |
| StreamHistory.RecordIsRun | wasm/npm/component.js:51-162 | The dispatches started and the chunks delivered are exactly those of the run's steps, in order |
| StreamHistory.RanIffStarted | wasm/npm/component.js:158-159 | A call counts as run if and only if the run started its dispatch |
| StreamAdapter.SecretsFirst | wasm/npm/component.js:110-162 | Before a stream or a plain request is dispatched, every useSession() queued before it has been applied |
| StreamAdapter.RejectionIsFinal | wasm/npm/component.js:116-160 | After a rejected useSession() settled a call early, neither that call nor any later one ever runs, so nothing overlaps |
| StreamAdapter.ReleasedEarly | wasm/npm/component.js:158-160 | The early settlement is real: a run in which the queue is released past a call while an earlier dispatch is still running |
| StreamAdapter.AppliedBesideDispatch | wasm/npm/component.js:116-120 | A run in which a session is applied while a streaming dispatch that started before is still active |
| StreamAdapter.OnlyLaterSessionsOverlap | wasm/npm/component.js:116-160 | In every run a session that is not applied yet beside an active call was queued after that call |
| StreamAdapter.QuietCalls | wasm/npm/component.js:142-162 | When no continuation is left to fire, every call has settled and released its successor, and it ran if and only if every session queued before it was applied: a failed call blocks nobody |
| StreamAdapter.QuietRequests | wasm/npm/component.js:132-138 | Then every plain request has settled too, and was dispatched if and only if every session queued before it was applied |
| StreamAdapter.QuietSessions | wasm/npm/component.js:110-123 | When no continuation is left to fire, every session has settled |
| StreamAdapter.ComesToRest | wasm/npm/component.js:51-162 | Every run is bounded by the work outstanding and six steps for each call or chunk from outside, so it comes to rest |
| StreamAdapter.StepWork | wasm/npm/component.js:51-162 | Each continuation uses up work; only outside steps add some, at most five |
| StreamAdapter.StepKeeps | wasm/npm/component.js:51-162 | Every step keeps the invariant, whichever ready continuation fires |
| StreamAdapter.RunKeeps | wasm/npm/component.js:51-162 | The invariant over whole runs |
| StreamAdapter.ReadyMeansAlone | wasm/npm/component.js:158-160 | When a call may start, every earlier call has run and settled and none is active |
| StreamAdapter.StartRunKeeps | wasm/npm/component.js:67-71 | Starting a dispatch hands it the sink and clears the recorded error |
| StreamAdapter.SendChunkKeeps | wasm/npm/component.js:56-59 | A chunk from a running dispatch finds that call's own sink and is delivered to it |
| StreamAdapter.CallbackKeeps | wasm/npm/component.js:58-63 | A failing callback is recorded against its own call |
| StreamAdapter.FinishRunKeeps | wasm/npm/component.js:70-80 | The end of a run reports the callback's error before the dispatch's and frees the sink |
| StreamAdapter.RejectCallKeeps | wasm/npm/component.js:158-161 | A call rejected by the chain never touches the sink |
| StreamAdapter.SetSessionKeeps | wasm/npm/component.js:116-120 | A session that begins, settles or is skipped disturbs no call |
| PbufChain.RxLink | example/stm32f769/ethernetif.c:327-345 | The callback appends a distinct buffer: the chain stays acyclic, ends at the new end, and every buffer's `tot_len` is the sum of `len` from it to the end, modulo 2^16 |
| PbufChain.RxLinkAll | example/stm32f769/ethernetif.c:327-345 | The same for any sequence of callbacks with distinct buffers, from an empty chain |
| PbufChain.Attach | example/stm32f769/ethernetif.c:331-340 | The new buffer is linked at the end of an empty or non-empty chain before any total changes |
| PbufChain.LinkAfter | example/stm32f769/ethernetif.c:337-339 | Linking after the last buffer keeps order and distinctness |
| PbufChain.AddToAll | example/stm32f769/ethernetif.c:342-344 | The loop along the chain brings every total up to date and ends |
| PbufChain.FillDescriptors | example/stm32f769/ethernetif.c:128-149 | The loop succeeds if and only if the chain fits the descriptors; then there is one descriptor per buffer with its payload and length, each pointing at the next, and the configured length is the first total |
| PbufChain.Fill | example/stm32f769/ethernetif.c:138-141 | One round fills the next descriptor and hooks it to the one before |
| PbufChain.TxLengthIsSum | example/stm32f769/ethernetif.c:136-143 | The descriptors' lengths add up to the real length of the chain |
| PbufChain.FrameLengthIff | example/stm32f769/ethernetif.c:136-145 | They add up to the configured length if and only if the chain is shorter than 2^16 bytes |
| PbufChain.ReceiveAndFill | example/stm32f769/ethernetif.c:136-145 | A chain linked from any distinct buffers and handed to the descriptors: their lengths add up to the real length, the configured one is that modulo 2^16 |
| PbufChain.LongFrame | example/stm32f769/ethernetif.c:136-145 | Two buffers of 40000 bytes: 80000 bytes described, 14464 configured |
| HttpRequest.BuildRequest | wasm/npm/http.js:16-38 | An ordinary reader finds in the bytes built the upper-case verb, the path, HTTP/1.1, the host, every header, the length if there is a body and no header tells it, the connection header, and the body |
| HttpRequest.RequestReads | wasm/npm/http.js:16-38 | The same of the head's lines, a blank line and a body |
| HttpRequest.RequestLineReads | wasm/npm/http.js:17-24 | The three words of the first line are found again at its first and last space, also when the path holds spaces |
| HttpRequest.HasLengthIff | wasm/npm/http.js:27-27 | A header counts as a length in whatever case its name is written |
| HttpRequest.DecimalReads | wasm/npm/http.js:30-30 | The digits of the length, read as a number, are the body's length |
| HttpRequest.UpperIs | wasm/npm/http.js:17-17 | The verb's letters are the same but for their case, and none is lower-case |
| HttpRequest.RequestSplits | wasm/npm/http.js:16-38 | For a verb, path and headers without CR, the first CRLFCRLF of a built request separates exactly its head from its body, whatever the body holds |
| HttpFraming.HeadEndsFirst | wasm/npm/http.js:45-55 | The first blank line after any lines without CR is the one that ends them |
| HttpFraming.FindEnd | wasm/npm/http.js:48-55 | The scan returns the first CRLFCRLF, or nothing only if there is none |
| HttpFraming.ReadHeaders | wasm/npm/http.js:60-64 | The loop leaves the object the lines describe: split at the first colon past the start, trimmed, a later line winning |
| HttpFraming.ParseResponse | wasm/npm/http.js:45-73 | No terminator, a malformed status line and success, each exactly when the text up to the first blank line says so |
| HttpFraming.ResponseRoundTrip | wasm/npm/http.js:45-73 | Parsing a serialized response returns its status, reason, headers and body, even when the body contains CRLFCRLF |
| HttpFraming.LinesParsed | wasm/npm/http.js:45-73 | Lines, a blank line and a body are taken apart where they were put together |
| HttpFraming.StatusRoundTrip | wasm/npm/http.js:58-69 | The status pattern gives back any three-digit code and any one-line reason, leading spaces included |
| HttpFraming.StatusIff | wasm/npm/http.js:58-59 | The status lines that are accepted, and what is read from them, exactly |
| HttpFraming.TrimIs | wasm/npm/http.js:63-63 | Trimming takes away white space only, and all of it at both ends |
| HttpFraming.ReadHeaderIs | wasm/npm/http.js:62-63 | A line is cut at its first colon, and one that begins with a colon is no header |
| HttpFraming.HeaderRoundTrip | wasm/npm/http.js:61-64 | A line with a trimmed colon-free name and a trimmed value is read back |
| HttpFraming.HeadersRoundTrip | wasm/npm/http.js:60-64 | All header lines are read back into one object |
| HttpFraming.AsObjectLast | wasm/npm/http.js:60-64 | The object has exactly the names of the headers, each with the value of its last one |
| HttpFraming.AsObjectDistinct | wasm/npm/http.js:60-64 | Under distinct names it holds each header |
| HttpFraming.SplitOfText | wasm/npm/http.js:57-57 | Lines without CR come back from their text |
| HttpFraming.TextOfSplit | wasm/npm/http.js:57-57 | Splitting at CRLF loses nothing, for any text |

## Left out

- Callbacks that return non-zero and stop the multipart parser; its allocation, logging, the uninitialized state and the default case of its switch.
- An empty boundary string: the parser then reads past its boundary, so the model requires a non-empty one.
- `tolower` of bytes above 127: header-name bytes are letters and `-`.
- The wrapper around the multipart parser that assembles form fields.
- Null-pointer guards and thread safety of the QUIC code.
- QuicProtocol.StepKeeps: windows, stream ids and byte counts above 2^62 - 1 are outside the protocol and outside the runs considered; what the arithmetic then does is stated by QuicCredit.SaturatesIff.
- Drawing, hints, alerts, timers, leaving a game and the server-polled multiplayer mode of the board game; a pass takes effect at once instead of after its timer.
- The random choice of the easy bot is a parameter, and so is the table of cell weights, of which nothing is assumed; the board is 8 by 8.
- In the stream adapter: argument checks, the synchronous exports of older components, two handles that share one host, and a guest that does not wait for its chunk to be taken.
- The rest of the Ethernet interface: hardware, receive pool, and the release of buffers.
- UTF-8, byte-order marks, white space beyond ASCII and the special keys of JavaScript objects in the HTTP framing; bytes and ASCII characters are the same symbols there.
- Everything else in CWIST: its server, router, database, TLS, bindings, tools and documentation, which are mostly calls into foreign code.
