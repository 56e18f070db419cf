# Verification of the Sync Com driver's data paths and clock programming

The Sync Com driver moves frames between user space and a serial board behind USB, and its library programs the
board's clock chip. This project models both in Dafny and proves what they are for.

**The clock.** `ClockSearch` is the divider search: a loop nest over tolerance, reference, output and VCO divider and
two filter tables, pruned and with uneven steps. It is proved sound, complete and minimal against an exhaustive
definition of "first in the order". `ClockRules` ties its integer tests to the source's formulas over the real numbers
and works out the search for 10 MHz. `ClockEncoder` edits the chip's 160-bit program word in place; `ClockWord` is the
chip's view of it, and the encoder is proved to be inverted by it. `ClockSerial` fills the 323 register words of the
bit-bang sequence, and a model of the chip that shifts on rising clock edges and latches on the strobe receives exactly
the word. `ClockProgram` composes all of it: a zero status means that the chip runs within the requested tolerance.
`Words` relates numbers and machine words.

**The buffers.** `Frames` is the growable byte buffer as a class over an array, proved against a value with append and
drop; `FrameLists` is the queue of frames with its running memory total.

**Transmit.** `Transmit` says what one frame looks like to the device: chunks, padding, length register.
`TransmitDevice` is the device: what reaches it of each visit, and the frames it puts together.
`TransmitRuns` is a state machine whose steps are the driver's critical sections; writer, worker, purging threads and a
thread that changes the cap take turns in any order, and any submission or copy may fail. Invariants over all runs give
conservation, the cap under a torn snapshot, order and retries. `TransmitProgress` says when the worker runs again, how
many runs it takes to send everything and what stops it; `TransmitPurges` says what a purge restores. `TransmitPort` is
the imperative code; each of its methods is proved to be a few steps of the machine.

**Receive.** `Transfers` is the coding of one USB transfer and the driver's repeated-header heuristic. `ReceiveRuns` is
the state machine in which bytes, coded and decoded transfer by transfer, and frame sizes arrive on separate channels
while a reader cuts the stream back into frames; `ReceiveResults` states what its invariants mean, the exact conditions
for framing, and that a read takes the longest prefix that has arrived and fits. `ReceivePurges` has the exact condition
for a purge to restore framing, and `ReceiveLimits` the runs that lose it. `ReceivePort` is the imperative code: it
carries the machine's state and invariants, and each of its methods is proved to be a few steps of the machine.

A step of a machine that is not enabled waits: it leaves the state alone, so a run is any sequence of steps. Fields that
only record the past (what was written, sent, purged, removed, discarded) never influence what the driver does; how far
the device has come decides what it sends next.

Where the code and its documentation or comments differ, the model follows the code:

- docs/clock-frequency.md:3 gives 20 kHz to 200 MHz; the search accepts 15 kHz to 270 MHz.
- src/config.h:60 calls the default clock word 18.432 MHz; it is 18.430 MHz (`ClockProgram.DefaultWord`). The word that
  docs/clock-frequency.md:29 gives for 10 MHz is exactly that (`ClockProgram.DocumentedWord`).
- lib/raw/calculate-clock-bits.c:384 suggests that the ratio is rounded up; line 381 adds one tenth also when nothing
  was cut off.
- docs/read.md gives -ENOBUFS for a buffer smaller than the next frame; it is also returned after a frame of two status
  bytes has been consumed (`ReceiveResults.FailsIff`).
- src/port.c:210 ignores a failed copy, and src/main.c:249 reports the write as complete
  (`TransmitPort.Port.SynccomWrite`).
- src/port.c:1253 means to tell the device a frame's length once; after a failed submission it is told again
  (`TransmitRuns.DeviceGetsWrites`, `TransmitRuns.FailedVisitMakesEmptyFrame`).
- docs/purge.md:22 lists ETIMEDOUT for a purge; src/port.c:839 and 877 drop the error code of the reset and go on.
- docs/purge.md:3 promises a fresh start after a purge. Its steps are under separate locks: a transfer in flight, a frame
  that comes in between, a run of the worker, or an empty frame that a failed copy left can outlast it
  (`ReceivePurges.PurgeRestoresIff`, `ReceiveLimits.FlightAcrossPurge`, `ReceiveLimits.PurgeInTwoSteps`,
  `TransmitPurges.VisitAfterReset`, `TransmitProgress.LostWakeup`).

## Model

| member | source | states |
|---|---|---|
| `ClockSearch.PruningLosesNothing` | lib/raw/calculate-clock-bits.c:203-213 | starting the VCO loop at the clamped quotient skips no divider within tolerance, for every tolerance up to 100% |
| `ClockSearch.VcoStart` | lib/raw/calculate-clock-bits.c:203-213 | the start is always a legal VCO divider, also where the quotient is negative and wraps |
| `ClockSearch.StepsCoverGrid` | lib/raw/calculate-clock-bits.c:413-421 | the uneven steps of the output divider loop skip nothing of the grid: every number to 1030, then every 2nd, 4th, 8th |
| `ClockSearch.StepsStayOnGrid` | lib/raw/calculate-clock-bits.c:413-421 | each step goes strictly down and stays on the grid, so the loop ends |
| `ClockSearch.SearchFilter` | lib/raw/calculate-clock-bits.c:259-409 | the two table loops return the first filter that meets the ratio and damping rules, or prove there is none |
| `ClockSearch.SearchVco` | lib/raw/calculate-clock-bits.c:202-411 | the VCO loop returns the least admissible divider, or proves there is none from 12 to 2055, including those below its start |
| `ClockSearch.SearchOutput` | lib/raw/calculate-clock-bits.c:199-423 | the output divider loop returns the greatest admissible divider of the grid, or proves there is none |
| `ClockSearch.SearchReference` | lib/raw/calculate-clock-bits.c:191-424 | the reference loop returns the least admissible divider, or proves that this tolerance has no solution |
| `ClockSearch.Search` | lib/raw/calculate-clock-bits.c:138-437 | code 1 exactly outside 15 kHz to 270 MHz; code 0 with the first admissible candidate of the order (least ppm, least r, greatest od, least v, first tables); code 2 only if no tolerance up to the requested one has any |
| `ClockSearch.FirstAtEveryDepth` | lib/raw/calculate-clock-bits.c:187-433 | being first at each depth of the loop nest is being first in the lexicographic order over the whole grid |
| `ClockSearch.FailureIsComplete` | lib/raw/calculate-clock-bits.c:426-433 | trying tolerances one by one fails if and only if no candidate is within the requested tolerance: an exhaustive search without tolerance steps |
| `ClockSearch.FirstIsLeast` | lib/raw/calculate-clock-bits.c:455-463 | the result comes before every other admissible candidate in the documented order of keys |
| `ClockSearch.FirstIsUnique` | lib/raw/calculate-clock-bits.c:455-463 | there is only one such candidate, so the search result is determined by its specification |
| `ClockSearch.SomethingFits` | lib/raw/calculate-clock-bits.c:204-424 | at a tolerance of 100% every frequency from 15 kHz has a candidate, so the negative start bound beyond 100% is never reached |
| `ClockSearch.HundredPercentSuffices` | lib/raw/calculate-clock-bits.c:426-433 | with a requested tolerance of 100% or more every supported frequency is found |
| `ClockSearch.WiderToleranceFitsMore` | lib/raw/calculate-clock-bits.c:188-257 | a candidate admissible at one tolerance is admissible at every larger one |
| `ClockRules.AdmissibleMeans` | lib/raw/calculate-clock-bits.c:191-396 | the integer tests of the search accept a candidate if and only if the source's own formulas do over the real numbers: detector, VCO and output frequency, bandwidth, rounded ratio and damping factor, with its literal limits and tables |
| `ClockRules.FilterBounds` | lib/raw/calculate-clock-bits.c:372-396 | the loop filter rule in whole numbers: the ratio from 6.9 to below 30 and the damping factor from 0.2 to 2, multiplied out |
| `ClockRules.TenMegahertz` | lib/raw/calculate-clock-bits.c:187-433 | a search worked out: for 10 MHz the first solution is the documented one, reference divider 2, output divider 54, VCO divider 45, 16 kilohms and 25 microamperes |
| `ClockEncoder.InputDividerTable` | lib/raw/calculate-clock-bits.c:554-597 | accepts 1 to 2055, writes bits that decode to the divider, leaves the bits of the next table and all other bytes alone |
| `ClockEncoder.VcoDividerTable` | lib/raw/calculate-clock-bits.c:598-609 | accepts 12 to 2055, writes bits that decode to the divider without disturbing the reference divider it shares byte 1 with |
| `ClockEncoder.ResistorTable` | lib/raw/calculate-clock-bits.c:610-632 | accepts exactly the four resistors, writes 0x00, 0x04, 0x02 or 0x06 for 64000, 52000, 16000 or 4000 ohms, and that decodes to the one given |
| `ClockEncoder.CurrentTable` | lib/raw/calculate-clock-bits.c:633-774 | accepts exactly the twenty currents, writes the literal bits of each row, which decode to the one given, and spares the resistor bits of byte 11 |
| `ClockEncoder.TryPatterns` | lib/raw/calculate-clock-bits.c:850-940 | the eight comparisons match exactly when the divider is (2(i+3)+y) times 1, 2, 4 or 8 with y at most 1 |
| `ClockEncoder.LongForm` | lib/raw/calculate-clock-bits.c:848-946 | the first-match loop finds the least i, or proves that none of the 512 matches |
| `ClockEncoder.OutputDividerTable` | lib/raw/calculate-clock-bits.c:775-948 | rejects exactly outside 2 to 8232; otherwise the bytes are those of the divider, and decode to it if it is representable and to 7 if not |
| `ClockEncoder.GridRepresentable` | lib/raw/calculate-clock-bits.c:413-421 | every divider the search visits is representable |
| `ClockEncoder.EncodeWord` | lib/raw/calculate-clock-bits.c:513-959 | the codes 3 to 7 in the order of the tables; on success all 20 bytes are determined field by field, the whole word decodes to all five values, no field clobbers another, and the constant bits are those of the template |
| `ClockSerial.BytesOfSentBits` | src/port.c:1022-1024 | the order in which bits are sent, byte 19 bit 7 to byte 0 bit 0, loses nothing: 160 bits give back the 20 bytes |
| `ClockSerial.SetClockBits` | src/port.c:985-1058 | after byte 15 got bit 2, the array is filled with exactly the 323 words of the bit-bang sequence, whose values are given bit by bit with literal line bits for both channels; without memory nothing is sent |
| `ClockSerial.TransmissionValues` | src/port.c:982-1044 | word 2n + 1 is the preserved register with data and clock bits 0x0003 or 0x0002 by bit n of the word, on channel 1 0x0300 or 0x0200; word 2n + 2 the same without the clock bit; word 321 has the strobe 0x0008 or 0x0800 alone |
| `ClockSerial.SignalsDriveLines` | src/port.c:992-1041 | on both channels each bit is a clock rise with the data level and without strobe, then a fall; the strobe comes without the clock |
| `ClockSerial.OtherBitsPreserved` | src/port.c:1020-1044 | every word keeps all register bits but the eight control lines, the strobe is high in word 321 alone, and the last word is the original value |
| `ClockSerial.ShiftedIn` | src/port.c:1022-1036 | after n bits a chip that shifts on rising clock edges holds the first n bits sent |
| `ClockSerial.StrobeLatches` | src/port.c:1022-1044 | from any register content, the chip latches exactly the 160 bits sent |
| `ClockSerial.ChipLatchesWord` | src/port.c:1001-1053 | what the chip latches is the 20-byte word |
| `ClockProgram.SolutionsEncode` | lib/raw/calculate-clock-bits.c:413-419 | every search result encodes with code 0, so codes 3 to 7 are unreachable |
| `ClockProgram.CalculateClockBits` | lib/raw/calculate-clock-bits.c:52-135 | status 0 exactly when the frequency is achievable; then the 20 bytes are those of the first solution and decode to it; otherwise the caller's bytes are untouched; 10 MHz gives exactly the documented 20 bytes |
| `ClockProgram.TenMegahertzBytes` | lib/raw/calculate-clock-bits.c:513-959 | the bytes of the setting for 10 MHz are the documented ones, bit for bit |
| `ClockProgram.DocumentedWord` | docs/clock-frequency.md:28-32 | the documented word decodes to that setting, is exactly 10 MHz, and meets the loop filter rule |
| `ClockProgram.DefaultBytes` | src/config.h:56-60 | the default word of the driver is, bit for bit, the encoding of dividers 75, 1843 and 32, 64 kilohms and 6.25 microamperes |
| `ClockProgram.DefaultWord` | src/config.h:56-60 | and decodes to that setting, which is 18.430 MHz |
| `ClockProgram.CrystalKeepsSetting` | src/port.c:1001 | selecting the crystal in byte 15 changes none of the five values |
| `ClockProgram.ChipTakesSetting` | src/port.c:985-1058 | for every word, register value, channel and chip state the chip ends up with the setting the word decodes to |
| `ClockProgram.SetClockFrequency` | examples/clock-frequency.c:9-16 | end to end: status 0 exactly when achievable, and then the chip runs within the requested tolerance with its VCO in range |
| `Frames.AddedIsAppend` | src/frame.c:91-110 | adding appends to the data, whatever reallocation it takes |
| `Frames.RemovedIsDrop` | src/frame.c:176-207 | removing drops a prefix, at most all of it |
| `Frames.AddThenRemove` | src/frame.c:91-207 | what was added behind other data comes out after it, unchanged |
| `Frames.TransferConserves` | src/frame.c:137-174 | a transfer keeps all bytes if and only if the destination's data fits its frame size |
| `Frames.Frame.constructor` | src/frame.c:35-57 | a new frame has no buffer and no data |
| `Frames.Frame.UpdateBufferSize` | src/frame.c:213-262 | reallocates to a multiple of four zeroed bytes and truncates the data, or, without memory, changes nothing; no buffer exactly at size 0 |
| `Frames.Frame.AddData` | src/frame.c:91-110 | fails only for no bytes or without memory, and then changes nothing; keeps data within a buffer of a multiple of four bytes |
| `Frames.Frame.AddDataFromUser` | src/frame.c:112-135 | a copy that stops early leaves bytes in the buffer but counts none of them |
| `Frames.Frame.MoveUp` | src/frame.c:204 | the overlapping move shifts the data down and leaves the tail of the buffer as it was |
| `Frames.Frame.RemoveData` | src/frame.c:176-207 | hands out and drops a clamped prefix; a failed copy to the user drops nothing; an empty frame counts as success |
| `Frames.Frame.Clear` | src/frame.c:209-211 | no buffer and no data |
| `Frames.TransferData` | src/frame.c:137-174 | moves exactly the prefix between two frames, or changes neither |
| `FrameLists.FrameList.AddFrame` | src/flist.c:40-45 | appends, and the running total stays the sum of what the frames hold |
| `FrameLists.FrameList.RemoveFrame` | src/flist.c:61-75 | takes the oldest frame; the total never underflows |
| `FrameLists.FrameList.RemoveFrameIfLte` | src/flist.c:77-101 | takes the oldest frame exactly if it is complete and not too large |
| `FrameLists.FrameList.Clear` | src/flist.c:103-118 | frees every frame and empties the list |
| `FrameLists.FrameList.CalculateMemoryUsage` | src/flist.c:124-133 | the recomputed sum equals the running total |
| `FrameLists.FrameList.PeekFront` | src/flist.c:47-52 | the oldest frame, or none exactly if the list is empty |
| `Transmit.TransmitFrame` | src/port.c:1227-1280 | one visit reads no further than the buffer and keeps the frame well formed and its claimed size |
| `Transmit.FutureIsIdeal` | src/port.c:1235-1261 | from every offset on, what a frame still sends is what the device should see: successive chunks of the data padded to whole words, where the pad bytes are zero in the first chunk and later the bytes 99996 positions before |
| `Transmit.FutureCount` | src/port.c:1235-1261 | a frame of L bytes takes exactly ceil(L / 99996) successful visits |
| `Transmit.IdealChunks` | src/port.c:1231-1249 | the chunks of a frame concatenate to its padded data |
| `Transmit.LengthWrittenOnce` | src/port.c:1253-1256 | among the successful visits of a frame the length register is written in the first one alone, with the frame's length |
| `TransmitDevice.ReassembleAll` | src/port.c:1248-1261 | a device that starts a frame at every length and cuts off the padding gets back every non-empty write, in order, from the ideal visits |
| `TransmitDevice.FeedCounts` | src/port.c:1248-1256 | what a visit adds to the device's frames: as many bytes as its chunk has and the latest frame lacks |
| `TransmitDevice.SeenExactly` | src/port.c:1248-1256 | the frames of all visits, where a failed one still writes its length, are those of the successful visits and empty ones; they are exactly those if and only if no failed visit wrote a length |
| `TransmitDevice.LengthsOfSuccesses` | src/port.c:1253-1256 | lengths are written more often than by the successful visits exactly if a failed visit wrote one |
| `TransmitDevice.LengthsIdeal` | src/port.c:1253-1256 | ideally the register is written once for every non-empty write, in order |
| `TransmitRuns.ConservedNext` | src/port.c:1227-1261 | every step of writer, worker and purgers keeps the byte balance, where the bytes sent are those the device has put into frames |
| `TransmitRuns.VisitCounts` | src/port.c:1248-1256 | a visit gives the device exactly the bytes the pending frame loses, none if it fails |
| `TransmitRuns.NoByteLost` | src/port.c:867-895 | after any run, with purges and failures: bytes written = bytes in the frames the device has put together from all visits + pending + queued + purged |
| `TransmitRuns.CappedNext` | src/port.c:921-939 | the two readings under two locks never undercount what is in use, with the worker and purgers in between |
| `TransmitRuns.CapRespected` | src/main.c:221-244 | after any run the memory in use is at most the highest cap so far, and right after a write at most the cap it was tested against |
| `TransmitProgress.CapDecides` | src/main.c:218-244 | the cap in force when a write tests decides whether it is refused, whatever the cap was before |
| `TransmitRuns.HighestCap` | src/main.c:221-222 | if nobody changes the cap, the bound is that cap |
| `TransmitRuns.InOrderNext` | src/port.c:1308-1351 | every step keeps: visits made + visits to come = what the device should see of all writes |
| `TransmitRuns.SentInOrder` | src/port.c:1308-1351 | after any run without purged bytes, the successful visits are a prefix of the ideal stream of all writes: in write order, never interleaved |
| `TransmitRuns.DeviceGetsWrites` | src/port.c:1248-1261 | once nothing is queued or pending, the device has, from all visits, exactly the non-empty writes and empty frames; it has no empty frame, and the length register was written once per write and in order, if and only if no failed visit wrote a length |
| `TransmitRuns.LengthsWithoutFailures` | src/port.c:1253-1256 | without failed submissions the length register is written exactly once for every non-empty write, in order |
| `TransmitRuns.FailedVisitMakesEmptyFrame` | src/port.c:1248-1256 | a run from the start in which a failed submission makes the device start an empty frame before the written one |
| `TransmitRuns.FailuresRepeat` | src/port.c:1248-1256 | a failed visit is followed by the same chunk with the same length register write |
| `TransmitProgress.RunWorks` | src/port.c:1337-1350 | a scheduled run of the worker that has data to send removes one chunk of work, strictly reduces the unsent bytes and asks for the next run |
| `TransmitProgress.DrainsExactly` | src/port.c:1308-1351 | frames with data drain in exactly the sum of ceil(L / 99996) runs: drained after n runs if and only if n is at least that |
| `TransmitProgress.StuckForever` | src/port.c:1245-1246 | an empty frame becomes pending and blocks everything behind it for ever |
| `TransmitProgress.DrainsIff` | src/port.c:1308-1351 | some number of runs drains everything if and only if no frame is empty |
| `TransmitProgress.NoFaultsNoEmptyFrames` | src/port.c:210-211 | empty frames come from nothing but failed copies and missing buffers |
| `TransmitProgress.AwakeNext` | src/port.c:217-217 | a step keeps the worker scheduled whenever it is outside and the frame whose turn it is has data, if and only if it does not purge an empty pending frame in front of such a frame while the worker sleeps |
| `TransmitProgress.AwakeAfter` | src/port.c:1347-1350 | so over every run without such a purge the worker is scheduled by a write or by itself while there is something it can send |
| `TransmitProgress.WorkIsScheduled` | src/port.c:1347-1350 | a state reached without such a purge in which no frame is empty and something is left to be sent has the worker inside or scheduled |
| `TransmitProgress.NoFaultsFreeNothing` | src/port.c:210-217 | runs without failed copies have no such purge, whatever they purge |
| `TransmitProgress.TimerRevives` | src/port.c:1299-1306 | once the timer has run, frames with data are sent in as many runs as they have chunks, whatever wake-up was lost |
| `TransmitProgress.LostWakeup` | src/port.c:885-890 | a run from the start with such a purge: a frame written while the purge went on is queued, no frame is empty, nothing is held, and the worker is not scheduled |
| `TransmitProgress.EverythingArrives` | src/port.c:1308-1351 | after any run with any failed submissions, without failed copies and purges, the worker is scheduled until all is sent: its next runs, as many as chunks are left, bring the device all writes, in order, and empty frames only if a failed visit had written a length |
| `TransmitPurges.LaterAfter` | src/port.c:1308-1351 | a port with a past does in every run what a new port does |
| `TransmitPurges.PurgeRestarts` | src/port.c:867-895 | after a purge that nothing comes between, at any moment and wherever worker and writer are, every later run is a run of a new port, with a past |
| `TransmitPurges.DeviceRestarts` | src/port.c:867-895 | so a device that forgets at the reset what it had gets from the later visits exactly the later writes: all their bytes are accounted for, and when all is sent it has those writes in order, with empty frames exactly if a failed visit wrote a length |
| `TransmitPurges.VisitAfterReset` | src/port.c:875-890 | a run of the worker between the reset and the end of the purge starts a frame in such a device if and only if it is the first visit of the pending frame; otherwise its bytes are lost to it |
| `TransmitPurges.ResetBetweenChunks` | src/port.c:875-890 | a run from the start in which that happens, for every write of more than one chunk |
| `TransmitPort.Port.PrepareFrameForFifo` | src/port.c:1227-1262 | equals the specified visit: chunk, length register, remaining frame and result |
| `TransmitPort.Port.OframeWorker` | src/port.c:1308-1351 | is the two machine steps Acquire and Send, keeps all invariants, and schedules itself exactly when the machine is scheduled afterwards |
| `TransmitPort.Port.Write` | src/port.c:199-220 | is the machine's Copy step; the only error is a missing frame |
| `TransmitPort.Port.SynccomWrite` | src/main.c:207-250 | the four outcomes in order of the tests; a failed copy is still reported as written |
| `TransmitPort.Port.PurgeTx` | src/port.c:867-895 | is the three steps of a purge, the reset of the transmitter first, and leaves a new port with a past |
| `TransmitPort.Port.GetOutputMemoryUsage` | src/port.c:921-939 | without interference, exactly the bytes queued and pending |
| `TransmitPort.AdmitSteps` | src/main.c:221-244 | the machine's entering, reading and testing steps in a row admit a write exactly if it fits |
| `Transfers.ExchangeBytes` | src/port.c:444-448 | the loop exchanges exactly the bytes of the words of header and payload |
| `Transfers.DecodeOfEncode` | src/port.c:417-450 | what the driver makes of any transfer the device encodes, with and without the repeated-header override |
| `Transfers.RoundTripIff` | src/port.c:417-431 | a payload is read back unchanged if and only if it is not misread: its length is 257 times an odd b and the previous transfer ended in two bytes b; up to 510 bytes only length 257 is affected |
| `Transfers.OnTheWire` | src/port.c:417-450 | a transfer byte by byte: the length with its higher byte first, the bytes of each word exchanged, the pad byte in the last word, and what is remembered of its end |
| `Transfers.RoundTripBehind` | src/port.c:417-434 | on the bytes of the previous transfer: a payload behind it is read back unchanged if and only if its length is not 257 times an odd b while that transfer's last byte and last but one are both b |
| `Transfers.DecodeCases` | src/port.c:417-450 | what is read: the payload, and behind a misread one the pad byte |
| `Transfers.RestOfBufferIgnored` | src/port.c:444-450 | what lies in the transfer buffer behind the transfer does not influence the payload |
| `Transfers.LostHeaderRecovered` | src/port.c:422-431 | what the override is for: an even payload whose header was replaced by the previous transfer's last two, equal, bytes is recovered |
| `Transfers.TransfersRoundTrip` | src/port.c:417-450 | any sequence of transfers, each read with the end of the previous one in mind, gives the concatenated payloads |
| `ReceiveRuns.RoomOfOrdinaryBuffer` | src/port.c:246-258 | for buffers below 2^31 - 2 bytes the 32-bit arithmetic gives the room there is |
| `ReceiveRuns.RoomIsThere` | src/port.c:246-258 | for all buffers it never gives more |
| `ReceiveRuns.RoomExactly` | src/port.c:246-261 | for all buffers the room is what there is, modulo 2^32, in the range of a signed 32-bit number |
| `ReceiveRuns.Next` | src/port.c:235-297 | whatever happens, no step overruns the user's buffer |
| `ReceiveRuns.CappedNext` | src/port.c:437-451 | a transfer that passed the cap still fits it when it is appended |
| `ReceiveRuns.CountedNext` | src/port.c:437-451 | every received byte is in the stream, in flight, removed or discarded, and each misread transfer that was appended brought one byte more |
| `ReceiveRuns.FlightRightNext` | src/port.c:417-451 | until a reset, the transfer in flight is the decoding of what the device sent last; after one it still has the bytes of that transfer |
| `ReceiveRuns.HandledCounts` | src/port.c:417-442 | what coding, decoding and cap test do with a transfer: discarded as a whole, or in flight with the pad byte exactly if it is misread |
| `ReceiveRuns.AlignedNext` | src/frame.c:264-285 | queued sizes are those of the next frames, and exactly the bytes of the consumed frames were removed, discards or not |
| `ReceiveRuns.InStreamNext` | src/port.c:380-459 | without discarded and misread transfers the stream is the device's stream from the first unread frame on |
| `ReceiveRuns.InBufferNext` | src/port.c:275-282 | a read in progress holds exactly the frames it consumed |
| `ReceiveRuns.DeliveredNext` | src/port.c:235-297 | every finished read holds exactly its frames, and reads follow each other without gap or overlap |
| `ReceiveRuns.ClaimsNext` | src/port.c:275-282 | no read claims less than it delivers, and it claims too much exactly if a frame's bytes were gone or could not be copied |
| `ReceiveRuns.InvariantAfter` | src/port.c:235-297 | all of these over every run |
| `ReceiveResults.StreamIsFramed` | src/port.c:235-297 | for every cutting into transfers and every interleaving of bytes, sizes and reads, while nothing is discarded, misread or disturbed: the stream is a prefix of the unread frames, the queue holds their sizes |
| `ReceiveResults.FramedIff` | src/port.c:417-451 | over all runs without purge and fault: without discards framing holds if and only if no appended transfer was misread, without misread ones if and only if nothing was discarded, and with both only if as many bytes were discarded as transfers misread |
| `ReceiveResults.MisreadCounted` | src/port.c:417-451 | the count of misread transfers tells whether a run appended one |
| `ReceiveResults.ReadsGiveFrames` | src/port.c:235-297 | the finished reads give the device's frames in order and exactly once, with or without status |
| `ReceiveResults.InputCapRespected` | src/port.c:437-442 | the input memory never exceeds the highest cap, whatever is purged, discarded or faulting |
| `ReceiveResults.BytesAccountedFor` | src/port.c:437-451 | byte balance of received, waiting, removed and discarded bytes; exactly the bytes of the consumed frames were removed |
| `ReceiveResults.CheckStaysValid` | src/port.c:265-277 | the completeness check made under one lock still holds when the bytes are taken under the other |
| `ReceiveResults.ReadyStays` | src/port.c:308-332 | readiness lasts through all arrivals until the reader acts or a purge comes |
| `ReceiveResults.ReadyIsRead` | src/port.c:262-273 | a reader that finds a ready frame takes it if and only if it fits the buffer |
| `ReceiveResults.FailsIff` | src/port.c:293-294 | a read returns -105 if and only if it consumed no frame or only frames of status bytes it does not keep, which are lost; otherwise it returns the number of bytes it gave |
| `ReceiveResults.ConsumeDeliversIff` | src/port.c:275-282 | consuming a frame delivers what it claims if and only if nothing is to be delivered, or the copy succeeds and the bytes are still there |
| `ReceiveResults.ClaimsIff` | src/port.c:275-296 | in every run, a finished read claims what it delivered if and only if that held for each of its frames |
| `ReceiveResults.DiscardsLeaveStreamShort` | src/port.c:437-442 | after a discard the stream stays short of exactly the discarded bytes, so all frames are read only if nothing was discarded |
| `ReceiveLimits.DiscardMisframes` | src/port.c:437-442 | a run from the start in which a discard makes a read give the second frame's bytes for the first frame |
| `ReceiveLimits.PurgeInGap` | src/port.c:272-282 | a run from the start in which a whole purge between the two critical sections makes the read claim three bytes and deliver none |
| `ReceiveLimits.FailedCopy` | src/port.c:277-281 | a run from the start in which the copy to the user fails: a byte is claimed and not delivered, two bytes that are not the status leave the stream, and what stays belongs to no frame |
| `ReceiveLimits.MisreadMisframes` | src/port.c:417-451 | a run from the start, without discards and purges, in which 257 bytes behind two ones give a wrong frame |
| `ReceiveLimits.FlightAcrossPurge` | src/port.c:437-451 | a run from the start in which a transfer passes the cap test before a purge and is appended after it: the next read gives its bytes for a frame that came later |
| `ReceiveLimits.PurgeInTwoSteps` | src/port.c:839-853 | a run from the start in which a frame comes between the last two steps of a purge: its size survives its bytes, and the next read gives wrong bytes |
| `ReceivePurges.LaterAfter` | src/port.c:235-297 | a port with a past that ends at the end of a frame does in every run what a new port does on the rest of the frames |
| `ReceivePurges.DriftAfter` | src/port.c:235-297 | the distance between stream and queue changes by nothing but discards, misread transfers, resets, purges and failed copies |
| `ReceivePurges.PurgeEmpties` | src/port.c:828-865 | whatever bytes, sizes and transfers come between the steps of a purge, the port it leaves is settled if and only if exactly the bytes of the frames whose sizes had come when the sizes were emptied have come when the stream is |
| `ReceivePurges.UndividedPurge` | src/port.c:828-865 | a purge that nothing comes between, in any run and at any moment without a read under way, in mid-frame too, leaves the port settled if and only if no transfer with bytes is in flight |
| `ReceivePurges.UndividedPurgeRestarts` | src/port.c:828-865 | so with nothing in flight such a purge always restarts framing at the first frame that the board has not dropped, for every later run |
| `ReceivePurges.PurgeRestarts` | src/port.c:828-865 | from a settled port every later run is a run from the start on the remaining frames, with a past |
| `ReceivePurges.FramingRestarts` | src/port.c:828-865 | so framing holds again: stream, queue and reads are those of a new port on the remaining frames |
| `ReceivePurges.InStepIff` | src/port.c:828-865 | whether a purge left the port settled decides for good whether sizes and bytes belong together, however bytes, sizes and reads go on, as long as nothing is discarded, misread, purged or faults |
| `ReceivePurges.PurgeRestoresIff` | src/port.c:828-865 | both together over all runs: the exact condition for a purge, with anything that comes between its steps, to put sizes and bytes in step at every later moment between two reads, or at none |
| `ReceiveResults.ReadOnIsRun` | src/port.c:245-291 | a read while nobody else moves is a run of the machine |
| `ReceiveResults.TakesLongestPrefix` | src/port.c:245-291 | looking at one frame after the other finds the longest prefix of the queue whose bytes have arrived and whose kept bytes fit |
| `ReceiveResults.ReadRemoves` | src/port.c:272-282 | exactly the consumed sizes leave the queue and exactly the sum of those sizes leaves the stream |
| `ReceiveResults.ReadGivesLongestPrefix` | src/port.c:235-297 | such a read gives exactly the longest prefix of frames that have arrived and fit, or at most one frame without the multiple option |
| `ReceiveResults.ReadTakesAtLeast` | src/port.c:245-291 | a read into which bytes, sizes and changes of the cap come in any order takes at least the frames it would have taken alone, and ends only when the next frame has not arrived or does not fit, or when one frame is enough |
| `ReceivePort.Port.ReadDataCallback` | src/port.c:380-459 | a transfer with the device's next bytes is the machine's Receive and Append steps, with the check bytes given and returned; with memory and room it is appended |
| `ReceivePort.Port.HandleTransfer` | src/port.c:417-451 | any transfer at all: appended as a whole or not at all, beyond the cap never; the check bytes become the transfer's last two |
| `ReceivePort.CallbackSteps` | src/port.c:417-451 | the machine's steps for a transfer: what they append is the decoding of the device's coding |
| `ReceivePort.Port.UpdateBcBuffer` | src/frame.c:264-285 | one Size step for each size in the register, in order; keeps all invariants |
| `ReceivePort.Port.HasIncomingData` | src/port.c:308-332 | by register value: in modes 1 and 2 with the three fields clear a non-empty stream, otherwise a queued size whose bytes have arrived |
| `ReceivePort.Port.StreamingModes` | src/port.c:1146-1164 | modes 1 and 2 stream with clear registers, 0 and 3 never, and no mode with run-length coding, frame-sync pulses or termination bytes |
| `ReceivePort.Port.constructor` | src/port.c:77-96 | a port set up with the default registers is in frame mode, empty, without status and reading one frame at a time |
| `ReceivePort.Port.FrameRead` | src/port.c:235-297 | is a run of the machine with the bytes of its finished read; it returns the number it claims, or -105 for none, never less than it gives; while the stream is intact it gives exactly the next frames and returns their number of bytes |
| `ReceivePort.Port.StreamRead` | src/port.c:222-233 | is the machine's streaming read: gives and removes a clamped prefix |
| `ReceivePort.Port.PurgeRx` | src/port.c:828-865 | is the three steps of a purge, the reset of the receiver first, and leaves the port settled |
| `ReceivePort.Port.GetInputMemoryUsage` | src/port.c:897-919 | exactly the bytes of the stream, since queued sizes hold none |
| `ReceivePort.Port.SynccomRead` | src/main.c:171-205 | by register value: -11 and no effect exactly if nothing is ready; otherwise the stream or frame read; a result that is not negative is the number of bytes given while the stream is intact, and never less |

## Left out

- Floating point: the search compares in exact integer arithmetic, with divisions multiplied out and the square root
  squared away; candidates that IEEE rounding puts on the other side of a bound are not modelled.
- 32-bit wrap-around of lengths and totals, except in the room of the user's buffer: lengths are below 2^32 - 4.
- Locks, deadlock freedom and lock order; a critical section is one atomic step. Several transfer callbacks at once are
  not modelled: the cap test and the check bytes are unsynchronised, so callbacks are taken one after the other.
- The static check bytes are shared by all ports in the source: the machine has a step by which another port changes
  them, and the callback is given them and returns them.
- What the board itself makes of a length that is written twice or of a chunk without one: the device of the model starts
  a frame at every length it is told, and drops a chunk that belongs to no frame. TransmitRuns has it never forget a
  frame; TransmitPurges has it forget all at a reset.
- Received bytes that the board has handed to USB before a reset and whose transfer ends after it: the machine's reset is
  the moment from which on only later data arrives, except for the one transfer that is in flight in the callback.
- A reset that times out: the machine's reset always happens.
- USB, URB allocation and register transport: a submission succeeds or not, register reads are parameters, and the byte
  order of a register message is not part of this model. Kernel memory is a boolean.
- The command register: the transmit command with its modifier bits; the reset commands are steps without an encoding.
- A transfer of one byte, and one whose header claims more than the transfer buffer holds: the model requires that
  neither occurs.
- Frames below two bytes from the device: the model requires status bytes at the end of every frame.
- The fields pending_iframe and pending_iframes, which are never filled, and timestamps, whose setting is rejected.
- Mode changes during a run, sysfs, ioctl dispatch, probe and suspend, the firmware loader, poll.
- The blocking waits of read and write: in the machines a refused writer leaves and may enter again; the methods are
  the calls on a non-blocking descriptor.
- The linked list is a sequence of frame objects, and the halves of one port structure are two classes.
- The encoder and the search are one C function; here they are one method per table and per loop.
- Frames.Frame.RemoveData: the user buffer is a sequence handed out; a partial copy to it counts as a
  failed one, as in the source.
- ReceiveRuns.InStreamNext: after a purge or a failed copy to the user nothing is claimed by this invariant; what holds
  again after a purge is said by ReceivePurges.FramingRestarts.
- ReceivePort.Port.FrameRead: the copies to the user succeed; failing ones are steps of the machine.
- ReceivePort.Port.ReadDataCallback: a transfer that is not the device's coding of its next bytes is covered by
  ReceivePort.Port.HandleTransfer alone; the header lost by the firmware is a lemma on one transfer.
- ReceiveResults.TakesLongestPrefix: for buffers from 2^31 - 2 bytes on the room is the one ReceiveRuns.RoomExactly gives,
  and no prefix is claimed; the same goes for ReceiveResults.ReadTakesAtLeast.
