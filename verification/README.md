# A verified model of the acquisition and decoding core

This project models four parts of the program and proves what they promise.

* **The decoder wait engine** (`libsigrokdecode`). A producer hands over chunks of bit-packed samples;
  a decoder waits for an OR of AND conditions. `find_match` scans forward and keeps a cursor, the
  previous pins, SKIP counters inside the terms and a "last sample matched" flag from call to call and
  from chunk to chunk, and it jumps over chunks in which constant channels rule every condition out.
* **The session-file feed** (`libsigrok/session_driver.c`, run by `libsigrok/session.c`). A streaming
  interleaver with cursors kept across callbacks, a closed-form block interleaver and a bit
  transposition for old files all produce "cross data".
* **The device list** (`libsigrok/lib_main.c`): activation, removal, session files, hotplug with its
  reconnect window, delayed destruction, exit.
* **Two codecs**: trigger symbols into mask, value and edge words (`libsigrok/trigger.c`), and sample
  rates into text and back (`libsigrok/strutil.c`).

How it is laid out:

| file | what it holds |
|---|---|
| `Samples`, `Matcher` | a window of samples; the matcher's state as a value and its steps as functions |
| `Kinds` | what waiting for a single term finds, kind by kind, in levels alone |
| `Declarative` | what a condition list means, without counters or cursor, and the scan's exactness |
| `ConstBlocks`, `EarliestMatch` | the jump against stepping; `find_match` finds the earliest match |
| `Chunking`, `ChunkInvariance`, `Cuts` | runs over chunks, invariance under cutting, the exact price of a cut |
| `StalePins` | the pins the jump leaves behind, and when the next chunk shows it |
| `Skips`, `Condless` | SKIP arithmetic; decoders that wait without conditions |
| `Instance` | `struct srd_decoder_inst` as a class whose methods work in place, proved against `Matcher` |
| `Pins` | what `c_pin` reads back |
| `Decoding` | a decoder's calls of `wait()` on the class, proved to be the runs of `Chunking` |
| `Handshake` | the mutex and condition protocol between producer and decoder thread |
| `WaitArgs` | the argument list of `c_wait` |
| `Interleave`, `PacketFeed`, `CrossData` | cross data in closed form; the streaming source; the two connected |
| `Mso`, `Session` | the mixed-signal source; the session loop and its source table |
| `Transpose`, `Producers` | the bit transposition; the three producers agree |
| `Devices` | the device list as a class whose methods are the atomic steps |
| `Trigger`, `SizeString` | the codecs |
| `Bits` | bits of natural numbers |

What the proofs turned up, where the code does something other than one would expect:

* A match on the last sample of a chunk loses the next sample: the cursor is moved on at the end of
  that chunk and again at the start of the next one. A cut between chunks is invisible to every next
  `wait()` exactly when the last match is not on the last sample before it (`CutIsSafeIff`).
* The constant-block jump passes over a match exactly if some later sample of the chunk has a condition
  whose terms on constant channels settle - right level, or NO_EDGE - and whose other terms hold
  (`JumpMissesIff`). That takes a NO_EDGE term which fails on the first constant sample and holds on the
  next (`NoEdgeIsMissed`); without one the verdict within the chunk is that of stepping
  (`JumpRefinesScan`).
* The jump leaves the pins of buffered channels as they were at the sample it leaves from. The same
  `wait()` going on in the next chunk can then report an edge that never happened (`FalseEdge`). The jump
  is invisible, to every list that takes it and every next chunk, exactly when no channel is constant, or
  no sample is passed over, or no constant channel begins with an edge and every buffered channel ends the
  chunk at the level it has where the jump is taken (`JumpInvisibleIff`).
* `c_pin` compares a byte offset counted from the 8-aligned chunk start with a length announced for
  the chunk itself; with a length in samples an unaligned chunk can report 0 for a high pin
  (`PinAgreementIff`, `SampleCountAsLength`).
* `SKIP 0` asks for the same sample again, but after a match on a chunk's last sample it waits for
  another chunk; n `SKIP 0` conditions in one list move the cursor back n times, so the same sample
  is reported exactly when n is 1 (`LoneSkipZero`, `ZeroSkipsGoBack`). One that stands before a failing
  term still moves the cursor when another condition holds at the sample (`ZeroSkipLingers`).
* A decoder that calls `wait()` without conditions sees every sample but the first one of every chunk
  behind the first (`BareRun`).
* A stopped mixed-signal run sends no end packet and leaves its source in the table, unless it was
  stopped in its very last round (`RunMsoStopped`).
* `trans_data` reads bits of later samples for a channel index of 16 or more (`TransBit`), and a
  version-1 packet announces the right length only if its last group of samples is whole or shorter
  than eight samples (`AnnouncedLength`).
* A failed `ds_lib_exit` leaves devices it destroyed in the list, exactly when the destroy that fails is not
  the first of the listed ones (`Exit`).
* A text without any digits is accepted as the size zero, the empty text included (`NoDigits`).
* Of the printed sample rates only whole numbers of the unit are understood by the parser
  (`SamplerateRoundTrip`). The printer leaves out leading zeros behind the point, so 1000001 becomes
  "1.1 MHz"; read as a decimal number the text is right exactly when there is no remainder, or the
  remainder is at least a tenth of the unit (`PrintedDecimalIff`). The comment at the printer shows
  `31.5 kHz` for 31500, the code prints "31.500 KHz" (`PrintedExamples`).

## Model

| member | source | states |
|---|---|---|
| Declarative.EvalTermsExact | libsigrokdecode/instance.c:1065-1105 | The short-circuit AND with its counters decides a condition exactly as the declarative reading does, which tells the kinds by levels alone, and in which a SKIP term holds once the samples at which the terms before it held add up to its target; and it leaves every counter right for the next sample. |
| Declarative.MatchIsShown | libsigrokdecode/instance.c:1065-1093 | The matcher's level test is what the kind asks of the channel's level and the one before it. |
| Declarative.EvalGroupsExact | libsigrokdecode/instance.c:1286-1299 | Testing all conditions at a sample sets exactly the match bits of those that hold there, and no condition is skipped because another one matched. |
| Declarative.StepwiseExact | libsigrokdecode/instance.c:1286-1315 | Stepping sample by sample stops at the least sample at which some condition holds, or at the end of the chunk with all counters and pins up to date. |
| EarliestMatches.EarliestExactMatch | libsigrokdecode/instance.c:1241-1318 | `find_match`, jump included, succeeds iff some sample of its range satisfies some condition; it then stops at the least one with exactly the bits of the conditions true there; otherwise no sample did, and the state is that of having stepped to the end, but for the pins of buffered channels. |
| EarliestMatches.EarliestMatchIff | libsigrokdecode/instance.c:1241-1318 | For every list, NO_EDGE on constant channels included: what `find_match` reports is the earliest match with the exact word, and it reports one iff there is one, unless and only unless it jumps over it. |
| EarliestMatches.NoEdgeOnBuffers | libsigrokdecode/instance.c:1206-1209 | A list without NO_EDGE on a constant channel meets the hypothesis of EarliestExactMatch in every state. |
| EarliestMatches.SkipStaysReached | libsigrokdecode/instance.c:1094-1098 | A SKIP term that has been reached stays satisfied for the rest of the scan. |
| EarliestMatches.NoTermsMatch | libsigrokdecode/instance.c:1250-1260 | A list without terms matches at once and changes nothing. |
| Kinds.OneTermFound | libsigrokdecode/instance.c:1065-1093 | Waiting for one term finds the least sample with: level 1 (HIGH), 0 (LOW), 0 then 1 (RISING), 1 then 0 (FALLING), two different levels (EITHER), two equal ones (NO_EDGE on a buffered channel); the first sample is compared with the remembered pin, or with the declared initial one; and it finds none iff there is none. |
| Kinds.OneTermStepped | libsigrokdecode/instance.c:1286-1315 | The same for stepping, NO_EDGE on constant channels included. |
| Kinds.InitialPinTold | libsigrokdecode/instance.c:1164-1188 | What a declared initial pin does to an edge term at the first sample: low makes a first high level a rising edge, high a first low level a falling one, "as in the first sample" shows none. |
| ConstBlocks.EvalTermsFailing | libsigrokdecode/instance.c:1220-1239 | A failing condition changes only the counter of the first term that fails, and allows the jump iff that term is on a constant channel. |
| ConstBlocks.GroupsJump | libsigrokdecode/instance.c:1288-1300 | The jump flag survives a pass iff every non-empty condition fails at a term on a constant channel, and then nothing has been counted. |
| ConstBlocks.JumpRefinesScan | libsigrokdecode/instance.c:1206-1209 | If every condition fails at such a term, NO_EDGE apart, no later sample of the chunk matches, and jumping gives the verdict, cursor, counters and flags of stepping; only the remembered pins of buffered channels may differ. |
| ConstBlocks.ScanRefinesStepping | libsigrokdecode/instance.c:1286-1318 | For every state the scan with the jump has the verdict of the scan without it, and on a match the same state. |
| ConstBlocks.JumpMissesIff | libsigrokdecode/instance.c:1286-1315 | For every list and state in which the jump is taken, stepping finds a match behind it iff at some later sample of the chunk some condition's terms on constant channels settle and its other terms hold; the jump itself reports none. |
| ConstBlocks.NoneSettlesNoneMissed | libsigrokdecode/instance.c:1311-1312 | The guard a caller can check: if no condition's terms on constant channels settle, nothing is missed. |
| ConstBlocks.NotOnNoEdgeNoneSettles | libsigrokdecode/instance.c:1090-1093 | That guard holds whenever no condition is failing at NO_EDGE. |
| ConstBlocks.JumpExactIff | libsigrokdecode/instance.c:1311-1312 | Corollary: where conditions that fail at NO_EDGE test constant channels only, a match is missed iff the chunk has another sample and some condition has settled, whatever the buffers hold. |
| ConstBlocks.NoEdgeIsMissed | libsigrokdecode/instance.c:1090-1093 | A concrete chunk and list where the jump passes over a NO_EDGE match. |
| StalePins.JumpInvisibleIff | libsigrokdecode/instance.c:1301-1315 | No list that takes the jump and no next chunk tell it from stepping, iff no channel is constant, or no sample is passed over, or no constant channel begins with an edge and every buffered channel has the same level at the sample the jump leaves from and at the chunk's last one. |
| StalePins.NoTrace | libsigrokdecode/instance.c:1311-1312 | In those cases the whole state after the jump is that of stepping, so nothing later differs. |
| StalePins.StalePinShows | libsigrokdecode/instance.c:1141-1162 | Otherwise a buffered channel that ends at another level gives a list and a next chunk in which an edge is reported that never happened. |
| StalePins.MissedEdgeShows | libsigrokdecode/instance.c:1090-1093 | ... and a constant channel that begins with an edge gives a NO_EDGE list that tells. |
| StalePins.FalseEdge | libsigrokdecode/instance.c:1301-1315 | A concrete list and two chunks: the jump leads to a rising edge at sample 8 on a channel that is high before and after it, stepping does not. |
| Chunking.BothWaitsAgree | libsigrokdecode/type_decoder.c:945 | Presetting the SKIP counters as the Python `wait()` does and leaving them zero as `c_wait` does start `find_match` from the same state. |
| Chunking.FindBounds | libsigrokdecode/instance.c:1272-1317 | The cursor stays between its start and the chunk's end, a failed call leaves it exactly at the end, successive matches strictly increase, and the "matched" flag outlives the chunk only for a match on its last sample. |
| Chunking.Drive | libsigrokdecode/instance.c:1337-1368 | A chunk is used up: whatever the decoder asks, the `wait()` calls answered from it end with the cursor at its end and the decoder waiting. |
| Chunking.Feed | libsigrokdecode/instance.c:1543-1549 | `srd_inst_decode` changes nothing for a chunk that does not start at the cursor, and otherwise moves the cursor to the chunk's end. |
| Chunking.AcceptedTile | libsigrokdecode/instance.c:1584-1592 | Whatever chunks are offered, the accepted ones tile the capture up to the cursor without gap or overlap, and the run is the run over these alone. |
| ChunkInvariance.ScanAlike | libsigrokdecode/instance.c:1286-1315 | A scan of a piece is a scan of the whole up to the piece's end: same match and state, or the whole's scan goes on from the state the piece's scan left. |
| ChunkInvariance.DriveAlike | libsigrokdecode/instance.c:1337-1368 | The same for all the `wait()` calls a chunk answers, for every deterministic decoder. |
| ChunkInvariance.DriveTracks | libsigrokdecode/instance.c:1303-1309 | After a chunk the "matched" flag is set iff the last match was on the chunk's last sample. |
| ChunkInvariance.ChunkingInvariance | libsigrokdecode/instance.c:1241-1318 | For every deterministic decoder and every cutting of a capture into consecutive non-empty chunks with no match on a chunk's last sample (the last chunk's apart), the run reports the matches, words and pins of the run on the uncut capture, and ends with the same SKIP counters; with bit buffers for all tested channels, or with constant blocks for HIGH, LOW and non-zero SKIP. |
| Cuts.CutIsSafeIff | libsigrokdecode/instance.c:1272-1317 | A cut after a match is invisible to every next condition list iff the match is not on the last sample before the cut. |
| Cuts.NotLastIsSafe | libsigrokdecode/instance.c:1272-1317 | A `wait()` after a match that is not on the last sample is answered across the cut with the sample and word of the uncut capture. |
| Cuts.SampleIsLost | libsigrokdecode/instance.c:1272-1275 | After a match on the last sample, waiting for the next sample across a cut does not report it. |
| Skips.LoneSkip | libsigrokdecode/instance.c:1272-1284 | After a match at s not last in its chunk, a lone SKIP n, n >= 1, matches next at exactly s + n, however the samples up to there are cut into chunks, and not at all if the capture ends before. |
| Skips.CountdownAcross | libsigrokdecode/instance.c:1094-1098 | A pending SKIP counter carries over any number of chunks and is reached at exactly the sample that is due. |
| Skips.SkipThenTerm | libsigrokdecode/instance.c:1094-1098 | After a match at s not last in its chunk, SKIP n and a term match at the first sample at or after s + n where the term holds in the uncut capture, however the samples are cut into chunks, constant blocks included, and not at all iff there is none. |
| Skips.LoneSkipZero | libsigrokdecode/instance.c:1234-1237 | A lone SKIP 0 returns the same sample with the same pins iff the chunk has one more sample. |
| Skips.ZeroSkipsGoBack | libsigrokdecode/instance.c:1234-1237 | After a match at s, with another sample in the chunk, n conditions SKIP 0 report s + 1 - n (modulo 2^64), which is s iff n is 1. |
| Skips.ZeroSkipLingers | libsigrokdecode/instance.c:1201-1202 | A SKIP 0 before a failing term is remembered and moves the cursor back for the next condition that holds. |
| Skips.CondlessVisitsAll | libsigrokdecode/type_decoder.c:1152-1165 | Condition-less waits visit every sample of the first chunk in order. |
| Skips.CondlessCountIff | libsigrokdecode/type_decoder.c:1152-1158 | A call without conditions skips no sample iff there was no list before and either no sample has been looked at or the cursor is at zero. |
| Condless.BareIsCondless | libsigrokdecode/type_decoder.c:1152-1165 | The lists of calls without conditions are SKIP 0 first and SKIP 1 after it. |
| Condless.BareRun | libsigrokdecode/instance.c:1272-1317 | However a capture is cut, a decoder of such calls is told every sample in order, except the first one of every chunk but the first. |
| Instance.DecoderInst.constructor | libsigrokdecode/instance.c:980-1063 | A started instance is in the matcher's initial state and its pin cache reads as unset. |
| Instance.DecoderInst.ReadPin | libsigrokdecode/instance.c:1206-1214 | The bit picked from the window is the channel's level at the cursor; constant iff it has no buffer. |
| Instance.DecoderInst.UpdateOldPins | libsigrokdecode/instance.c:1141-1162 | The remembered pins become the levels at the cursor. |
| Instance.DecoderInst.UpdateOldPinsInitialPins | libsigrokdecode/instance.c:1164-1188 | Exactly the pins declared "same as sample 0" take their level from the cursor. |
| Instance.DecoderInst.TermMatches | libsigrokdecode/instance.c:1190-1218 | Verdict, counting and both flags of one term, and no other term changes. |
| Instance.DecoderInst.AllTermsMatch | libsigrokdecode/instance.c:1220-1239 | The loop is the short-circuit AND, with the SKIP 0 correction of the cursor on success only. |
| Instance.DecoderInst.HaveNonNullConds | libsigrokdecode/instance.c:1125-1139 | True iff some condition is not empty. |
| Instance.DecoderInst.BumpAfterMatch | libsigrokdecode/instance.c:1272-1284 | The cursor moves on by one and every non-zero SKIP restarts at one; nothing else changes. |
| Instance.DecoderInst.FindMatch | libsigrokdecode/instance.c:1241-1318 | In place, `find_match` computes the matcher's function of the old state, reads only inside the window's buffers, and ends at the end of the window iff it found nothing. |
| Instance.DecoderInst.ProcessSamples | libsigrokdecode/instance.c:1337-1368 | Nothing is searched when termination is requested; otherwise a search that finds nothing uses the window up, so one round of the loop answers. |
| Instance.DecoderInst.AnswerWait | libsigrokdecode/instance.c:66-127 | Leaves untouched iff termination is requested; on a match the window is kept and every channel's pin cached; otherwise the window is given back and marked handled. |
| Instance.DecoderInst.FillPinCache | libsigrokdecode/instance.c:92-106 | Every channel's cache entry is the bit under the cursor, within the announced length. |
| Instance.DecoderInst.CPin | libsigrokdecode/c_decoder_api.c:493-507 | The cached pin of a connected channel, 0xFF for every other number. |
| Instance.DecoderInst.LoadChunk | libsigrokdecode/instance.c:1543-1571 | Accepted iff the length is not zero and the chunk starts at the cursor (anywhere at first); the window then is the 8-aligned chunk; refused, window and handshake flags stay. |
| Instance.DecoderInst.SetConditionList | libsigrokdecode/type_decoder.c:980-1069 | The installed list has the given terms with the counters that `create_term_list` presets. |
| Instance.DecoderInst.TakeParsedList | libsigrokdecode/instance.c:61-64 | A parsed list replaces the current one as it is; an empty one leaves it with its counters. |
| Instance.DecoderInst.SetCondlessWait | libsigrokdecode/type_decoder.c:1152-1165 | The list installed for a `wait()` without conditions. |
| Decoding.AnswerChunk | libsigrokdecode/instance.c:53-127 | On the class, waiting for list after list until the window is used up gives the state and the matches of the run over the chunk. |
| Decoding.AnswerChunkC | libsigrokdecode/c_decoder_api.c:439-491 | A C decoder that goes on with `c_wait` - parse the arguments, take the list as it is, wait - has the same run, counters left at zero or not. |
| WaitArgs.ParsedFresh | libsigrokdecode/c_decoder_api.c:459-480 | The parser makes no empty group and starts every counter at zero. |
| Decoding.DriveAligned | libsigrokdecode/instance.c:1560 | Aligning a chunk's start changes nothing in the run over it. |
| Decoding.DecodeChunk | libsigrokdecode/instance.c:1543-1573 | On the class, `srd_inst_decode` and the decoder's answer to it do what the run over chunks says, refusals included. |
| Decoding.WaitAndReadPin | libsigrokdecode/c_decoder_api.c:493-507 | After a match `c_pin` of a connected channel is the remembered pin and the level the matcher tested, if the announced length reaches the chunk's last byte. |
| Pins.AlignmentIsInvisible | libsigrokdecode/instance.c:1560 | Loading the window at a multiple of eight makes no difference to what is found, for every start. |
| Pins.MatchRemembersPins | libsigrokdecode/instance.c:1141-1162 | After a match the remembered pins are the levels that were tested at the matching sample. |
| Pins.CachedPinAgrees | libsigrokdecode/instance.c:97-105 | `c_pin` tells the tested level, unless the channel is buffered and high and the announced length does not reach the sample's byte. |
| Pins.PinAgreementIff | libsigrokdecode/instance.c:86-106 | For every alignment, `c_pin` agrees with the matcher for all contents iff the announced length reaches the last sample's byte, counted from the aligned start. |
| Pins.SampleCountAsLength | libsigrokdecode/instance.c:99-105 | With the sample count as length every aligned chunk agrees; eight samples from sample 1 do not. |
| Samples.ShiftedIsTested | libsigrokdecode/instance.c:1211-1213 | The two bit-picking expressions agree on every byte and bit. |
| Samples.PinPlaces | libsigrokdecode/instance.c:1211-1213 | Eight samples to a byte, the first in the least significant bit, counted from the 8-aligned start. |
| Handshake.StepKeepsInv | libsigrokdecode/instance.c:66-127 | Every action of producer, decoder and terminator keeps mutual exclusion, the meaning of the flags and that sleepers miss no signal. |
| Handshake.RunKeepsInv | libsigrokdecode/instance.c:1551-1573 | The same for whole runs. |
| Handshake.ReadsAreSafe | libsigrokdecode/instance.c:66-76 | In every reachable state, a read of `inbuf` by `wait` happens under the mutex, with the chunk marked new and no termination requested, and the chunk is that of a running call of `srd_inst_decode`. |
| Handshake.ReturnMeansHandled | libsigrokdecode/instance.c:1570-1573 | A call that returns without a termination request has had its chunk handled and `inbuf` points nowhere. |
| Handshake.ReturnMeansSearched | libsigrokdecode/instance.c:1570-1573 | A call that returns without a termination request has had its own chunk searched to the end by the decoder since it handed the chunk over. |
| Handshake.ChunkStays | libsigrokdecode/instance.c:76-109 | Through any number of matches, until the chunk is searched to its end or termination is requested, it stays new and pointed to, its call cannot return, and the decoder's next look at the flags goes on searching it. |
| Handshake.FlagsChange | libsigrokdecode/instance.c:110-117 | Which actions change the shared flags and the buffer pointer, and into what. |
| Handshake.WaitReturns | libsigrokdecode/instance.c:71-109 | `wait` returns to the decoder after a match or a request, and in no other way; behind a used-up chunk it goes on waiting. |
| Handshake.FallsAsleep | libsigrokdecode/instance.c:1570-1573 | With `HandsOver` to `Joins`, step by step: one exchange with a match in it, from the start to the join. |
| Handshake.NoReadAfterRequest | libsigrokdecode/instance.c:741-769 | After a termination request `wait` never touches a buffer again until the join. |
| Handshake.NoLostWakeUp | libsigrokdecode/instance.c:1444-1471 | No reachable state has producer and decoder both asleep, and while a call is under way some thread can move on by itself. |
| WaitArgs.ParseArgs | libsigrokdecode/c_decoder_api.c:453-480 | The argument loop computes the parse function. |
| WaitArgs.EncodedIsDistinct | libsigrokdecode/libsigrokdecode.h:195-204 | No encoded term equals CW_OR or CW_END, and type and 16-bit channel decode back. |
| WaitArgs.MacroValues | libsigrokdecode/libsigrokdecode.h:145-204 | The numbers the macros stand for. |
| WaitArgs.ListRoundTrip | libsigrokdecode/c_decoder_api.c:453-480 | Parsing what the macros wrote appends the non-empty groups in order. |
| WaitArgs.RoundTrip | libsigrokdecode/c_decoder_api.c:453-480 | A list without empty groups comes back unchanged iff its channels fit in 16 bits and its counters are fresh. |
| Interleave.RowsAt | libsigrok/session_driver.c:816-856 | The closed form of cross data: unit w * n + c is unit w of channel c. |
| Interleave.RowsJoin | libsigrok/session_driver.c:722-860 | Interleaving block by block is interleaving the concatenated channels. |
| PacketFeed.Feed.MakeDirMap | libsigrok/session_driver.c:695-715 | The two search loops compute the directory map. |
| PacketFeed.Feed.LoadBlock | libsigrok/session_driver.c:733-812 | Loads the next block iff every channel has it with one size; otherwise one error end packet and the source is gone. |
| PacketFeed.Feed.CopyUnits | libsigrok/session_driver.c:816-857 | The copy loop keeps "sent plus packet = consumed", channel cursor included, until packet or block is used up. |
| PacketFeed.Feed.FillPacket | libsigrok/session_driver.c:722-860 | The packet loop ends with a full packet or with everything read, in terms of the cross data consumed. |
| PacketFeed.Feed.NothingUnsent | libsigrok/session_driver.c:862-889 | A packet ends on a whole group of n channels, so restarting the channel cursor is sound and nothing is left unsent. |
| PacketFeed.Feed.Receive | libsigrok/session_driver.c:614-902 | A call sends one full packet - two hundred thousand words or ten thousand bytes of every channel - and moves on, or removes the source after one end packet, before which it may send one more packet of whole groups. Unless it fails, all that has been sent, by a stopped run too, is the cross data up to the place reached; a file in order never fails, and unstopped it is sent completely. |
| PacketFeed.Feed.PlaceInStream | libsigrok/session_driver.c:722-889 | What has been consumed of a file in order is a beginning of its cross data. |
| CrossData.StreamIsInterleave | libsigrok/session_driver.c:722-889 | What is sent for a file in order is the interleave of the channels' concatenated blocks. |
| CrossData.SentUnit | libsigrok/session_driver.c:722-889 | Unit w * n + c of the concatenated packets is unit w of channel c, and the packets hold no byte more. |
| CrossData.DirsAscending | libsigrok/session_driver.c:696-715 | The directory map lists directories that are there, ascending, and skips none. |
| CrossData.DirsAreLeast | libsigrok/session_driver.c:634-715 | The channel map of n channels is exactly the n least directory numbers up to 128 that are in the archive, whenever there are that many. |
| CrossData.GoodIff | libsigrok/session_driver.c:733-790 | A file is in order iff every block is there in each of these directories, equally long, and in whole words if it is logic data; an oscilloscope file has one block. |
| Mso.MsoChannelIndex | libsigrok/session_driver.c:247-258 | The order-th enabled logic channel's index, -1 if there is none. |
| Mso.IndicesSnoc | libsigrok/session_driver.c:251-255 | Exactly the channels that are logic and enabled count, in list order. |
| Mso.InterleaveBlock | libsigrok/session_driver.c:373-379 | The index formula of the block interleaver fills the buffer with the interleave of the block. |
| Mso.MsoFeed.LoadLogicBlock | libsigrok/session_driver.c:332-366 | Succeeds iff every channel has the block, equally long, not empty and in whole words. |
| Mso.MsoFeed.LogicOkIff | libsigrok/session_driver.c:332-358 | A logic block is acceptable iff each channel has it, of one size, a multiple of eight and not zero. |
| Mso.MsoFeed.AnalogOkIff | libsigrok/session_driver.c:403-407 | An analog block is acceptable iff it is there, not empty, and a whole number of samples. |
| Mso.MsoFeed.SamplesAre | libsigrok/session_driver.c:399-416 | The sample count times the analog channels times the bytes their bits fill is the packet's size. |
| Mso.MsoFeed.Receive | libsigrok/session_driver.c:299-434 | For any archive: a call sends the packet of its step - logic blocks, analog blocks, end - or an error end packet if the metadata or the block of the step is bad; the result is false only then or when a stopped run ends. |
| Session.Session.SourceAdd | libsigrok/session.c:316-361 | The source is appended to both arrays; the timeout becomes the least positive one. |
| Session.Session.SourceRemove | libsigrok/session.c:414-473 | Exactly the first source of the object leaves both arrays, which stay in step. |
| Session.Session.Stop | libsigrok/session.c:289-302 | Only a running session is marked for abort. |
| Session.Session.RunFeed | libsigrok/session.c:234-274 | A run over a logic or oscilloscope file ends, stopped or not, with data packets of whole groups, exactly one end packet and an empty table; of a file in order a beginning is sent without an error, and all of it if nobody stops the run. |
| Session.Session.RunMso | libsigrok/session.c:234-274 | An unstopped run over a mixed-signal file ends with one end packet and an empty table, and sends an archive in order block by block, logic before analog. |
| Session.Session.RunMsoStopped | libsigrok/session_driver.c:428-433 | A run stopped in round k has sent at most k + 1 packets and at most one end packet, and its table is empty iff that was sent; for an archive in order iff nothing was left to send, and the packets are the first k + 1 of the full run. |
| Transpose.CollectWord | libsigrok/session_driver.c:203-209 | The bit loop collects the word of one channel. |
| Transpose.TransData | libsigrok/session_driver.c:195-212 | The three loops write the interleave of the enabled channels' words. |
| Transpose.EnabledSnoc | libsigrok/session_driver.c:198-202 | Exactly the enabled channels count, in list order. |
| Transpose.TransBit | libsigrok/session_driver.c:203-209 | Bit j of a channel's word k is its bit of sample 64k + j; an index of 16 or more reaches into the samples behind. |
| Producers.SplitIsTransposed | libsigrok/session_driver.c:195-212 | Below index 16, a channel's transposed words in memory are the bytes of its samples split off bit by bit. |
| Producers.WordBytesBit | libsigrok/session_driver.c:210 | Bit b of byte m of a word in memory is bit 8m + b of the word. |
| Producers.SplitBit | libsigrok/session_driver.c:203-209 | Bit b of byte i of a split channel is its bit of sample 8i + b. |
| Producers.TransposedBit | libsigrok/session_driver.c:195-212 | Bit j of written word k * E + e is the e-th enabled channel's bit of sample 64k + j. |
| Producers.InterleavedBit | libsigrok/session_driver.c:373-379 | The same bit by bit for the interleave of the split channels: bit j of its unit k * E + e is the e-th channel's bit of sample 64k + j, byte by byte. |
| Producers.TransposeIsInterleave | libsigrok/session_driver.c:373-379 | Transposing raw samples equals splitting them per channel and applying the block interleaver's formula. |
| Producers.TransposeIsStream | libsigrok/session_driver.c:816-832 | ... which equals what the streaming source sends for an archive of the split channels, however they are divided into blocks. |
| Producers.AnnouncedLength | libsigrok/session_driver.c:568 | The announced length is that of the whole groups read iff fewer than eight samples are left over, or nothing is enabled. |
| Devices.LibContext.ActiveDevice | libsigrok/lib_main.c:363-480 | Status and new active device in every case - refused, not listed, opened, gone back - and only a device waiting for it is destroyed. |
| Devices.LibContext.RemoveDevice | libsigrok/lib_main.c:623-675 | When it succeeds, fails or refuses, for every handle; success destroys one listed device of that handle and takes it off the list; a waiting one of that handle goes first. |
| Devices.LibContext.DeviceFromFile | libsigrok/lib_main.c:572-594 | A readable file adds one listed device. |
| Devices.LibContext.AppendIfNew | libsigrok/lib_main.c:1223-1249 | A scanned instance is listed iff it is ready and matches no listed one, and destroyed otherwise. |
| Devices.LibContext.ProcessAttach | libsigrok/lib_main.c:1480-1519 | Exactly the scanned instances that are taken in join the list, in order, and the others are destroyed. |
| Devices.AfterScanMeaning | libsigrok/lib_main.c:1223-1249 | A scanned instance is taken in iff it is ready and matches neither a device listed before nor an earlier instance of the scan that was taken in; the devices listed before keep their places. |
| Devices.LibContext.UsbExists | libsigrok/lib_main.c:1254-1281 | True iff some listed device matches the USB device. |
| Devices.LibContext.UpdateHandle | libsigrok/lib_main.c:1323-1365 | The first listed device on the bus that matches the lost one takes over handle, bus and address, and keeps driver and type, unless it is active and cannot be closed; if it is active a transaction is counted. The list stays pairwise non-matching because the new device was unknown. |
| Devices.ReconnectOf | libsigrok/lib_main.c:1334-1360 | The device taken over is listed, on the bus and matches; there is none only if nothing matches or the active device cannot be closed. |
| Devices.LibContext.HotplugAttach | libsigrok/lib_main.c:1398-1438 | A known device changes nothing. An unknown one makes the lost device, if one is waited for, take over its handle, bus and address - that device and no other - and is announced as new otherwise; the wait is over either way. |
| Devices.LibContext.HotplugDetach | libsigrok/lib_main.c:1439-1472 | The reconnect window starts anew, unless a pending detach of a listed device is kept over an unknown one; collecting stops iff the active device is the one detached and the callback is not on its thread. |
| Devices.LibContext.ProcessDetach | libsigrok/lib_main.c:1521-1582 | The first listed device that matches the detached one leaves the list: it waits for its destruction iff it is the active one, and is destroyed otherwise; it stays only if its driver does not destroy it or none matches. |
| Devices.DetachOf | libsigrok/lib_main.c:1545-1572 | The device a detach removes is listed, matches, and waits iff active; nothing is removed only if nothing matches or a destroy fails. |
| Devices.LibContext.Tick | libsigrok/lib_main.c:1584-1633 | What a round does: the attach that is due, then the detach that is due, to the list, the destroyed and the delayed device; the fifth round without the device makes it detached; a reconnect not seen yet reopens the active device and is seen then; the active device and the invariants are kept. |
| Devices.LibContext.TwoRounds | libsigrok/lib_main.c:1621-1632 | Of two rounds with no reconnect between them only the first reopens the active device. |
| Devices.LibContext.ReopenedOnce | libsigrok/lib_main.c:1354-1358 | An active device that comes back is reopened in the next round and not again; nothing else is. |
| Devices.LibContext.Countdown | libsigrok/lib_main.c:1608-1618 | For four rounds nothing happens to a device that lost contact, the fifth makes it detached. |
| Devices.LibContext.Init | libsigrok/lib_main.c:119-186 | The first call lists the demo devices and then the scanned ones that are taken in, and destroys the others; a second call changes nothing. |
| Devices.LibContext.Exit | libsigrok/lib_main.c:198-259 | Success leaves no device alive. When it fails, and exactly which devices are destroyed by then: none if the active one was not released, else the waiting one and those listed before the one that fails; so destroyed devices stay listed iff a destroy behind the first listed one fails. |
| Devices.LibContext.Step | libsigrok/lib_main.c:363-1633 | Which events may touch what, and what each of them does; every step keeps: created = live + destroyed, disjoint; the active device is live, and listed iff not waiting for destruction; no two listed devices match. |
| Devices.LibContext.RunAndExit | libsigrok/lib_main.c:198-259 | After any run of steps a successful exit has destroyed every instance ever created, none of them twice. |
| Devices.RemoveOne | libsigrok/lib_main.c:638-668 | Removing one entry of a list without duplicates takes away that device and no other. |
| Devices.RemoveFirst | libsigrok/lib_main.c:647-668 | The first occurrence goes and the others keep their order. |
| Devices.UsbMatchesIff | libsigrok/lib_main.c:1182-1198 | A USB device is the listed one of its handle, or else one of the USB type at its bus and address. |
| Devices.InstanceMatchesIff | libsigrok/lib_main.c:1200-1221 | Two instances match iff they have one handle, or one driver, the USB type, and one bus and address. |
| Trigger.ShiftInBits | libsigrok/trigger.c:310-313 | Shifting a 16-bit word loses exactly its top bit. |
| Trigger.QuarterBits | libsigrok/trigger.c:315-319 | Quarter mode: bit k is bit k mod 4 of the plain word, the additions make no carries. |
| Trigger.HalfBits | libsigrok/trigger.c:320-322 | Half mode: bit k is bit k mod 8 of the plain word. |
| Trigger.Modes | libsigrok/trigger.c:315-322 | Quarter mode goes before half mode. |
| Trigger.TriggerTable.StageSetValue | libsigrok/trigger.c:101-119 | The leftmost symbol goes to the highest probe; other stages and probes are untouched. |
| Trigger.TriggerTable.ProbeSet | libsigrok/trigger.c:176-189 | Only the simple trigger's entry of that probe changes. |
| Trigger.TriggerTable.GetWord | libsigrok/trigger.c:294-487 | For masks, values and edges of both tables: bit k belongs to probe lsc + k, a window wider than 16 keeps its lowest 16 probes, quarter and half mode repeat the lowest 4 and 8. |
| Trigger.SymbolIffDecoded | libsigrok/trigger.c:358-389 | The three bits of a probe tell its symbol, for exactly the characters X, 0, 1, R, F and C. |
| Trigger.SetAndRead | libsigrok/trigger.c:422-454 | Setting a stage and reading mask, value and edge loses no symbol of the window. |
| SizeString.ParseSizestring | libsigrok/strutil.c:314-351 | The stepping loop accepts what the grammar accepts - number, blanks, at most one suffix, nothing or "Hz" - with its 64-bit product. |
| SizeString.NumberRead | libsigrok/strutil.c:318 | `strtoull` reads back every printed 64-bit number and stops behind it. |
| SizeString.SignedRead | libsigrok/strutil.c:318 | White space and a sign before the number: too large a one saturates, a minus sign counts down from 2^64. |
| SizeString.BareNumberIff | libsigrok/strutil.c:314-351 | A number without a suffix is accepted iff nothing or "Hz" in either case follows it behind blanks, and is that number. |
| SizeString.SuffixedNumberIff | libsigrok/strutil.c:314-351 | A number with one of the six suffix letters behind blanks is accepted iff nothing or "Hz" follows, and is 1000, 1000000 or 1000000000 times as much, modulo 2^64. |
| SizeString.NoDigits | libsigrok/strutil.c:318-350 | A text without digits counts as zero: the empty one and "kHz" are accepted. |
| SizeString.SamplerateRoundTrip | libsigrok/strutil.c:63-91 | For every 64-bit rate the printed text parses iff the largest of 1, 10^3, 10^6, 10^9 not above it divides it, and then yields that rate. |
| SizeString.PrintedDecimalIff | libsigrok/strutil.c:63-91 | For every rate the printed text, read as a decimal number of its unit, names that rate iff there is no remainder or the remainder is at least a tenth of the unit. |
| SizeString.PrintedExamples | libsigrok/strutil.c:133-153 | 31500 is printed "31.500 KHz", and 1000001 as "1.1 MHz", which names 1100000. |
| SizeString.PrintedUnits | libsigrok/strutil.c:63-91 | The texts of 0, 999, 1000, 20000, 3000000 and 2000000000. |

## Left out

- The Python C API and its interpreter lock: `wait()` is modelled on conditions already parsed. Only the C decoder's side of the handshake is modelled; the Python thread runs the same protocol with the lock around it.
- Chunking.Drive: the runs leave out lists whose conditions are all empty, which match at once without a sample, and SKIP 0 in a list that follows a match, alone or with other terms: it returns the same sample again, so a decoder that keeps asking for it never ends. SKIP 0 in the first list, as a first `wait()` without conditions installs it, is in. One SKIP 0 after a match is the subject of `LoneSkipZero`, several of `ZeroSkipsGoBack`.
- Instance.DecoderInst.FindMatch: at most 31 conditions, because the source shifts a 32-bit int; the functions of `Matcher` have no such bound.
- Condition lists are values, not linked lists of mutable terms, and sample numbers and counters do not wrap at 2^64.
- Handshake.NoReadAfterRequest: up to the join, which the model lets happen only while no call of `srd_inst_decode` is running.
- `c_decoder_get_pin`, which reads the window at an arbitrary sample.
- PacketFeed.Feed.constructor: 1 to 511 channels; with 512 the source clears one entry behind its table of block buffers.
- Zip, libusb and poll: an archive is a map from inner names to bytes, a USB device a handle with bus and address. Failed allocations and failed reads of a file that is there are left out.
- The version-1 and analog callback `receive_data`, but for `trans_data` and the length it announces; the polling branch of `sr_session_run`; header and trigger packets.
- Devices.LibContext.AppendIfNew: the destroy of a rejected instance is taken to succeed, as the source ignores its answer.
- Devices.LibContext.DeviceFromFile: a virtual device's handle, its own address, is taken to be no listed device's.
- Devices.LibContext.Init: the demo devices, appended unseen, are taken to match nothing.
- Devices.LibContext.Exit: the source does not clear the active pointer of a listed device it destroyed; the model keeps it too and claims nothing about it afterwards.
- The choice of the device the polling fallback reports, event callbacks to the user interface, and that every detach is eventually processed: one pending handle is kept and overwritten.
- The trigger's counts, inversions and logic flags, and the error value returned while there is no trigger table.
- Size units based on 1024, times, periods and everything in floating point.
