# IO-board service: a verified model

The service drives one IO board (ten loadcells, a door, a deadbolt) over a half-duplex serial
line shared by many asynchronous callers, with firmware that answers late, answers the wrong
request, corrupts frames and flips the sign of loadcell readings.  This project models the parts
that cope with that and proves what they promise.

| files | part |
|---|---|
| `Engine`, `EngineLocks`, `EngineWire`, `EngineBlocks`, `EngineLoadcells`, `EngineBolt`, `EngineReadings`, `EngineConfirm`, `EngineRetries`, `EngineGates`, `EngineGlitches`, `EngineView` | the whole service as a step machine: any number of tasks, arbitrary replies, scheduling and cancellation; invariants of every run |
| `SerialTransaction` | the retry loop of one serial transaction, in place, against a specification over attempt outcomes |
| `LoadcellThrottle` | the loadcell command with its cache lists and sanitizer, in place |
| `DeadboltConfirm` | the confirm loop of one deadbolt operation |
| `FrameCodec`, `FrameFields`, `Xor` | request printer, stream reader, acceptance check and response parser, and the same byte by byte |
| `Sanitizer`, `GlitchRemoval`, `MedianLayer`, `SanitizerOutput`, `Quantizer`, `Readings` | the loadcell sanitizer object and the theorems about runs of it; number texts |
| `Filters` | exponential smoothing and Kalman filter objects, and their convergence |
| `Polling` | subscriber set, wake event, broadcast and the polling loop |
| `FrameOrientation` | recovery of negated frames in the diagnostic tool |
| `Basics` | optional values, absolute value, powers |

How to read it.  One action of the step machine is the code between two `await`s (some are split
further, which only adds interleavings).  The wire trace and the log are records of what was
sent, received, sampled, calibrated, served and confirmed; the theorems are about them.  Floats
and times are `real`; there is one monotone clock, and a sleep of `d` wakes at least `d` later.
Objects the source updates in place are classes whose methods are proved against functions on
values, and the theorems are about those functions.  Preconditions on configurations are the
ones the configuration validators enforce (`src/core/config.py:71-93`, `src/core/config.py:181-185`,
`src/core/config.py:232-247`, and for the deadbolt deadline `src/core/config.py:274-278`); the settle
and poll times of a deadbolt operation are the positive constants of `src/api/v1/routers/machine.py:51-52`.

What came out differently from what documentation or comments suggest:

- The checksum includes ETX in the code; `docs/PROTOCOL.md:14` says it is excluded.  The model follows the code.
- A frame that answers another request leads to a resend in the code; `CHANGELOG.md:33-38` describes waiting without resend.  The model follows the code.
- Sign glitches vanish without trace for integer readings (`IntegerGlitchesVanish`).  For fractional spellings the values are restored but the text may not be: with the shipped defaults a flipped `+125.0` comes back as `+00125` (`FractionalGlitchShows`); `GlitchRemovalTextsIff` says exactly when.
- The quantizer's hysteresis prevents flapping exactly while it is at most half a step; a wider one makes it flap (`FlapFreeIff`).
- A product id survives its echo exactly if it is ASCII, at most eleven bytes, has no ETX inside and no NUL at the end (`ProductIdEchoIff`).
- The polling loop does not always stop when nobody is subscribed: if the only subscriber leaves after the loop was woken and before it has resumed, one poll (never two) starts for nobody (`HastyLeavePolls`). `IdlePollIff` and `NoIdlePollIff` say exactly when; without such a leave it never happens (`CarefulLeavesNeverIdle`).
- The median layer protects the guard from a flipped reading exactly if two recent untouched readings precede it (`MedianProtectsIff`); the first two readings after a reset or a stale gap are unprotected.

## Model

| member | source | states |
|---|---|---|
| Engine.ViewAccepts | src/services/io_board/serial_io.py:265-300 | A frame as the step machine sees it is accepted for a code exactly if the retry loop accepts its bytes |
| EngineView.ViewOfStatus | src/services/io_board/commands.py:364-374 | An accepted RQID answer is a state exactly if it has nineteen bytes with OPENED or CLOSED in the door field and UNLOCK or LOCKED in the deadbolt field, and then the deadbolt's; otherwise it is an error |
| EngineView.ViewOfBolt | src/services/io_board/protocol.py:121-123 | An accepted MCDC answer is a state exactly if it has eight bytes with 'O', unlocked, or 'C', locked |
| EngineView.ViewOfCalibration | src/services/io_board/commands.py:169-177 | An accepted MCLZ answer is readable exactly if it has seven bytes |
| EngineView.ViewOfWeights | src/services/io_board/commands.py:334-335 | An accepted RQIW answer gives ten texts, in channel order, each the bytes of its own field without padding, exactly if it has 67 bytes in ASCII |
| EngineView.MessagesArePrinted | src/services/io_board/commands.py:66-82 | Every task sends exactly the bytes the request printer builds for its command |
| EngineLocks.LocksStep | src/services/io_board/serial_io.py:429-433 | Every action keeps: a task holds the serial mutex exactly while inside a transaction, the gate and the operation lock exactly while its command runs |
| EngineLocks.LocksInRun | src/services/io_board/commands.py:323-338 | The lock fields agree with all tasks in every reachable state, cancellations included |
| EngineLocks.SomeTaskCanStep | src/services/io_board/commands.py:323-338 | Deadlock freedom: while any task is unfinished some unfinished task waits for no lock and resumes after at most its own timer |
| EngineLocks.OneAtATime | src/services/io_board/serial_io.py:429-429 | In every run at most one task is on the line, at most one loadcell request is past the gate and at most one deadbolt operation is under way, phase by phase |
| EngineWire.TransmitKeepsTiming | src/services/io_board/serial_io.py:449-473 | A transmission after both gates keeps its distance from everything on the wire, whoever sent it |
| EngineWire.HeardKeepsTiming | src/services/io_board/serial_io.py:472-473 | Every complete frame, accepted or discarded, restarts the quiet time |
| EngineWire.TimingStep | src/services/io_board/serial_io.py:351-386 | Every action keeps the recorded times sound and the waits of running transactions honest |
| EngineWire.TimingInRun | src/services/io_board/serial_io.py:351-386 | In every run any two RQIW transmissions are at least the loadcell gap apart, and every transmission is at least the inter-command gap after every earlier complete frame |
| EngineGates.GatesOpen | src/services/io_board/serial_io.py:351-386 | In every run a transaction waits no longer than the gaps demand: when they are over its gate is open |
| EngineBlocks.TakeKeepsBlocks | src/services/io_board/serial_io.py:429-431 | Taking the line opens a new block that no earlier event belongs to |
| EngineBlocks.AppendKeepsBlocks | src/services/io_board/serial_io.py:451-473 | Every event of a transaction extends its own block, which is the last one |
| EngineBlocks.BlocksInRun | src/services/io_board/serial_io.py:429-473 | In every run the trace is a sequence of contiguous blocks, one per transaction: one identical message, increasing attempts, nothing after an accepted frame, every frame directly after its transmission, at most max-retries transmissions |
| EngineBlocks.TransmissionsBounded | src/services/io_board/serial_io.py:441-441 | A block transmits at most once per attempt |
| EngineRetries.CourseOfCommand | src/services/io_board/serial_io.py:429-473 | The order of a command's suspension points: queueing, opening, both gates, drain, transmission, listening; a failed opening, a closed connection and a cancellation end it |
| EngineRetries.CountsInRun | src/services/io_board/serial_io.py:441-473 | In every run the attempt number is the number of transmissions of the transaction on the wire |
| EngineRetries.FailureDecides | src/services/io_board/serial_io.py:479-651 | In every run, after k transmissions a failed attempt is repeated exactly if k is below the limit, after initial delay times multiplier to the k - 1; at the limit or on a broken line the connection is closed; an accepted frame ends the transaction |
| EngineRetries.RetryFollows | src/services/io_board/serial_io.py:508-511 | When the delay is over the same request goes on with the next attempt |
| EngineLoadcells.SampleKeepsLog | src/services/io_board/commands.py:328-349 | Receiving, sanitizing, caching and serving a loadcell frame is one step and keeps the log sound |
| EngineLoadcells.ForgetKeepsLog | src/services/io_board/commands.py:169-176 | Receiving a calibration answer and dropping cache and sanitizer state is one step and keeps the log sound |
| EngineLoadcells.EnterKeepsLog | src/services/io_board/commands.py:323-330 | A cache hit serves the newest sample's output, younger than the gap |
| EngineLoadcells.LoadcellsStep | src/services/io_board/commands.py:297-349 | Every action keeps cache and sanitizer equal to a replay of the samples since the last calibration; failed requests change neither |
| EngineLoadcells.LoadcellsInRun | src/services/io_board/commands.py:323-349 | In every run the sanitizer is applied exactly once per accepted loadcell frame in the order received, and everything served is the replay's output for the newest sample |
| EngineLoadcells.CalibrationBarrier | src/services/io_board/commands.py:158-177 | After a successful calibration no result served and no cache or sanitizer state rests on a frame received before its answer, under every interleaving |
| EngineLoadcells.CalibrationsReset | src/services/io_board/commands.py:169-177 | In every run each accepted calibration answer on the wire resets cache and sanitizer, exactly once and in the order received |
| EngineLoadcells.CalibrationBarrierOnWire | src/services/io_board/commands.py:158-177 | For every accepted calibration answer on the wire: from its log entry on everything served, and cache and sanitizer now, rest on frames received after it; with none received since, there is no cache and every channel is blank |
| EngineLoadcells.CacheServesIff | src/services/io_board/commands.py:322-330 | In every run a caller is served from the cache exactly if the throttle is on and the newest sample since the last calibration is younger than the gap; otherwise it queues for the line |
| EngineLoadcells.FramesAreServed | src/services/io_board/commands.py:335-349 | In every run every accepted loadcell frame is served, fresh, to the caller whose request it answers |
| EngineGlitches.ReplayByChannel | src/services/io_board/sanitizer.py:62-137 | Sanitizing whole frames is, channel by channel, the run of that channel's own readings, in state and in text |
| EngineGlitches.ServedTextIsClean | src/services/io_board/commands.py:323-349 | In every run, if the frames sampled since the last calibration show on a channel integer readings of one sign with correctable sign flips, the text returned to a caller, fresh or cached, is the one the uncorrupted readings give |
| EngineGlitches.ServedTextIsQuantized | src/services/io_board/sanitizer.py:126-133 | In every run with quantization on, every text served for a channel carries the channel's bin, or is the device's own marker |
| EngineGlitches.ServedTextIsRaw | src/services/io_board/sanitizer.py:201-205 | With the sanitizer disabled the newest sample's own texts are served |
| EngineBolt.BoltStep | src/api/v1/routers/machine.py:186-216 | Every action keeps: from the moment the operation lock is taken only its holder commands the deadbolt, and readings are paced |
| EngineBolt.BoltInRun | src/api/v1/routers/machine.py:186-216 | In every run a reported state is an accepted RQID reading of that operation, asked for and taken after its acknowledged MCDC had settled, with no other task's MCDC since the lock was taken and none at all since the acknowledgement; it matches, or was checked at or after the deadline |
| EngineBolt.ReportIsSettled | src/api/v1/routers/machine.py:203-216 | In every run the reported frame directly follows the task's own RQID request, sent no earlier than the settle time after the acknowledgement, with no command in between; the report comes no earlier than that plus all pauses |
| EngineReadings.DeliverCounted | src/api/v1/routers/machine.py:211-216 | Every accepted sensor frame of an operation is counted, and reported with its count |
| EngineReadings.CountInRun | src/api/v1/routers/machine.py:206-216 | In every run the counters of operations and reports are the numbers of accepted RQID frames of that task since it took its lock |
| EngineReadings.ReadingsBounded | src/api/v1/routers/machine.py:206-216 | In every state of every run a deadbolt operation, running, reported, failed or cancelled, has received at most ceil(timeout / poll) + 1 sensor readings |
| EngineReadings.ReportedReadings | src/api/v1/routers/machine.py:211-215 | The count in a report is the number of its readings on the wire up to the reported one, and at least one |
| EngineBolt.CeilingIs | src/api/v1/routers/machine.py:206-216 | The bound on the readings uses the least integer not below timeout / poll |
| EngineConfirm.DecisiveIsReported | src/api/v1/routers/machine.py:211-216 | In every run, a reading that shows the wanted state or comes at or after the deadline ends the operation and is the one reported; while an operation goes on, all its readings were early and showed the other state |
| EngineConfirm.OperationCourse | src/api/v1/routers/machine.py:203-216 | The operation settles for exactly the settle time after the acknowledgement, pauses for exactly the poll time after an inconclusive reading, and reports the decisive one |
| EngineConfirm.DeadlineStarts | src/api/v1/routers/machine.py:206-212 | When the settle time is over the deadline is set the timeout ahead and the sensor is asked |
| SerialTransaction.ConclusionUnique | src/services/io_board/serial_io.py:435-643 | The outcome sequence determines the number of attempts and the result |
| SerialTransaction.ErrorOfLastAttempt | src/services/io_board/serial_io.py:479-643 | A last timeout raises the timeout error, a last cut the incomplete-read error, a bad checksum the checksum error, other codes the invalid-response error, all only after the allowed attempts; a broken line the unexpected error at once; everything before was retried |
| SerialTransaction.FirstAcceptableWins | src/services/io_board/serial_io.py:479-580 | The first checksum-valid frame with the expected codes is returned if nothing breaks before it; a broken line aborts at once; otherwise the last allowed attempt alone fixes the error |
| SerialTransaction.KeptIffDelivered | src/services/io_board/serial_io.py:479-563 | The retry loop keeps a frame exactly when the step machine delivers it, so both models share one acceptance |
| SerialTransaction.TotalBackoffIs | src/services/io_board/serial_io.py:437-437 | Closed form of the total backoff: the geometric sum of initial delay times multiplier powers |
| SerialTransaction.ConstantBackoff | src/services/io_board/serial_io.py:437-437 | With multiplier 1 the total backoff is linear |
| SerialTransaction.TraceGrows | src/services/io_board/serial_io.py:441-473 | One more attempt adds its footprint and keeps all spacing |
| SerialTransaction.FootprintsAre | src/services/io_board/serial_io.py:441-473 | A transaction transmits its message once per attempt, numbered from one, and receives exactly the device's answers in order |
| SerialTransaction.SameRequestIff | src/services/io_board/serial_io.py:358-360 | Two printed requests share their spacing exactly if their codes agree, whatever data they carry |
| SerialTransaction.SerialLine.RespectInterCommandGap | src/services/io_board/serial_io.py:370-386 | Returns no earlier than the gap after the last complete frame, and sleeps only if it must |
| SerialTransaction.SerialLine.RespectWireMinGap | src/services/io_board/serial_io.py:351-369 | Returns no earlier than the interval after the last transmission of the same request, and sleeps only if it must |
| SerialTransaction.SerialLine.Transmit | src/services/io_board/serial_io.py:455-471 | Stamps the request, and the new transmission keeps its distance from the whole trace |
| SerialTransaction.SerialLine.Exchange | src/services/io_board/serial_io.py:449-473 | One attempt leaves exactly one transmission and the answer, if any, on the wire, properly spaced, and without waiting if both gaps are over |
| SerialTransaction.SerialLine.Judge | src/services/io_board/serial_io.py:479-563 | First checksum, then codes decide whether a frame is kept, and which error it counts as |
| SerialTransaction.SerialLine.BackOff | src/services/io_board/serial_io.py:508-511 | The delay after attempt k is the k-th term of the geometric series |
| SerialTransaction.SerialLine.Converse | src/services/io_board/serial_io.py:435-643 | The retry loop meets the specification: result, attempts, backoff slept and trace |
| SerialTransaction.SerialLine.Fetch | src/services/io_board/serial_io.py:396-651 | The whole transaction: sequence number, failed opening without trace, specification met, connection kept exactly on success |
| LoadcellThrottle.LoadcellCommands.constructor | src/services/io_board/commands.py:280-294 | A new throttle has no cache and no samples |
| LoadcellThrottle.LoadcellCommands.ResetLoadcellProcessing | src/services/io_board/commands.py:297-303 | A reset leaves nothing of earlier frames |
| LoadcellThrottle.LoadcellCommands.SanitizeLoadcells | src/services/io_board/sanitizer.py:201-205 | The sanitizer's output and state are the replay of all samples; disabled it passes values through |
| LoadcellThrottle.LoadcellCommands.GetLoadcells | src/services/io_board/commands.py:322-349 | A hit returns a separate, equal copy younger than the gap and changes nothing; a failure changes nothing of its own; a frame is sampled once and cached and returned as two lists; a calibration that completes while the request waits drops what was before it |
| LoadcellThrottle.OverwriteResult | src/services/io_board/commands.py:330-348 | Overwriting a returned list does not change what the cache serves next |
| DeadboltConfirm.Confirm | src/api/v1/routers/machine.py:206-216 | Returns the first reading that matches, fails, or is checked at or after the deadline; every earlier one showed the other state and was checked before the deadline; the number of readings is bounded, and it returns at most one pause and one request after the deadline |
| FrameCodec.LookupInvertsCodeBytes | src/services/io_board/protocol.py:116-147 | Reading the printed code gives the code back |
| FrameFields.CodeTexts | src/services/io_board/protocol.py:80-147 | The code bytes are those of the ten four-letter codes |
| FrameFields.FoldIsParity | src/services/io_board/protocol.py:62-71 | Every bit of the checksum is the parity of that bit over the bytes covered |
| FrameFields.ParityIff | src/services/io_board/protocol.py:62-71 | The checksum is the one byte with the parity of the data |
| FrameFields.AcceptedIff | src/services/io_board/serial_io.py:265-300 | A frame is accepted exactly if it has at least seven bytes, 0x02 first, 0x03 last but one, the expected codes, and a last byte with the parity of everything between 0x02 and it |
| FrameFields.ReadIff | src/services/io_board/serial_io.py:240-262 | The reader hands over exactly the prefix that ends one byte after the first 0x03 past the first byte, and leaves the rest |
| FrameFields.BarePrinted | src/services/io_board/protocol.py:76-110 | A request without data is 0x02, its codes, 0x03 and their parity |
| FrameFields.BoltPrinted | src/services/io_board/protocol.py:85-87 | The deadbolt requests are 0x02, MCDC, 'O' to open or 'C' to close, 0x03 and the parity |
| FrameFields.IdPrintedIff | src/services/io_board/protocol.py:89-91 | A product id is printed exactly if it is ASCII of at most eleven bytes, padded with NULs to eleven |
| FrameFields.Unprintable | src/services/io_board/protocol.py:80-102 | Requests missing their data and unlisted pairs cannot be built |
| FrameFields.ParsedFields | src/services/io_board/protocol.py:116-147 | Whatever parses holds in each field the bytes of that field in place, without padding: ten readings of six, four errors of four, door and deadbolt of six, product id of eleven, version of two, deadbolt by its byte |
| FrameFields.LengthsOfFields | src/services/io_board/serial_io.py:57-68 | The table's lengths are seven plus the widths of the fields |
| FrameCodec.XorFoldConcat | src/services/io_board/protocol.py:62-71 | The checksum distributes over concatenation |
| FrameCodec.XorFoldUpdate | src/services/io_board/protocol.py:62-71 | Effect of replacing one byte on the checksum |
| FrameCodec.SubstitutionDetected | src/services/io_board/serial_io.py:285-300 | Any one-byte substitution anywhere in an accepted frame is rejected |
| FrameCodec.DoubleSubstitutionUndetectedIff | src/services/io_board/serial_io.py:285-300 | Two substitutions go unnoticed exactly if they spare STX and ETX and differ by the same bits |
| FrameCodec.FramedReadIff | src/services/io_board/serial_io.py:240-262 | The three-phase reader returns a frame and leaves the rest untouched exactly if its body has no ETX |
| FrameCodec.FramingRoundTrip | src/services/io_board/serial_io.py:240-262 | Any concatenation of frames without inner ETX is read back as exactly those frames with nothing left |
| FrameCodec.ReaderConservesBytes | src/services/io_board/serial_io.py:240-262 | On any stream the frames and the rest are the stream, and every frame ends in ETX and one byte |
| FrameCodec.AcceptedFrameParsesIff | src/services/io_board/commands.py:72-94 | A frame the retry loop accepts parses exactly if it has its table length and ASCII text, and then the later code check never fires |
| FrameCodec.ParsedMessageStartsWithValidFrame | src/services/io_board/protocol.py:112-155 | Whatever parses starts with a frame of the schema's width whose checksum the retry loop's check accepts: the two checksum computations agree |
| FrameCodec.FrameIsAccepted | src/services/io_board/serial_io.py:265-300 | Every printed frame passes the checksum and code checks |
| FrameCodec.ParsePrinted | src/services/io_board/protocol.py:112-155 | Parsing a printed frame of the schema's width yields its fields |
| FrameCodec.StripKeepsIff | src/services/io_board/protocol.py:126-144 | Stripping the padding keeps a text exactly if it does not end in NUL |
| FrameCodec.DeadboltEcho | src/services/io_board/protocol.py:85-87 | An echoed deadbolt request is read, accepted and parsed: OPEN as UNLOCK, CLOSE as LOCKED |
| FrameCodec.ProductIdEchoIff | src/services/io_board/protocol.py:89-91 | A product id request is built, and its echo parses to the same id, exactly under the stated condition on the id |
| Xor.Associates | src/services/io_board/protocol.py:71-71 | XOR on bytes, defined bit by bit, is associative |
| Xor.Solve | src/services/io_board/protocol.py:71-71 | XOR is its own inverse: a ^ b == c exactly if b == a ^ c |
| Readings.FlipSignNegates | src/services/io_board/sanitizer.py:139-146 | For a text with a sign in front, flipping the sign negates the value that is read, or leaves the text unreadable |
| Readings.IntegerTextValue | src/services/io_board/sanitizer.py:139-146 | A sign and five digits read as that decimal number |
| Readings.TenthsTextValue | src/io_board/filters.py:61-69 | A sign, three digits, a point and a digit read as that decimal number |
| Readings.TrailingZeroIsFree | src/services/io_board/sanitizer.py:139-146 | Fractions count by decimal places: appending a zero to one leaves the value as it is |
| Readings.MarkersUnreadable | src/services/io_board/sanitizer.py:141-142 | The two error markers have no value |
| Readings.FormatIntegerReads | src/services/io_board/sanitizer.py:170-173 | Every emitted number reads as the value cut off toward zero, at most 99999, under its sign |
| Readings.FormatIntegerReadsBackIff | src/services/io_board/sanitizer.py:170-173 | The emitted text always parses, and to the value exactly if it is an integer of at most 99999 |
| Readings.FormatTenthsReadsBack | src/io_board/filters.py:71-91 | The emitted text has six characters and reads back under the same sign within 0.05, within 1 once the decimal no longer fits, and as 99999 from there on |
| Quantizer.RoundUnique | src/services/io_board/sanitizer.py:163-166 | Half-up rounding picks the one cell the value lies in |
| Quantizer.QuantizeSound | src/services/io_board/sanitizer.py:148-168 | The output is a multiple of the step within step/2 + hysteresis of the value |
| Quantizer.BinStaysOnGrid | src/services/io_board/sanitizer.py:148-168 | After any run the stored bin is a multiple of the step near the last value |
| Quantizer.NoReturn | src/services/io_board/sanitizer.py:152-162 | With hysteresis at most step/2, a bin that was left is not re-entered by inputs spread over at most twice the hysteresis |
| Quantizer.WideHysteresisFlaps | src/services/io_board/sanitizer.py:152-162 | With a wider hysteresis such a return exists |
| Quantizer.FlapFreeIff | src/services/io_board/sanitizer.py:152-162 | Freedom from flapping is equivalent to hysteresis at most step/2 |
| Sanitizer.LoadcellSanitizer.constructor | src/services/io_board/sanitizer.py:44-52 | All channels start blank |
| Sanitizer.LoadcellSanitizer.Reset | src/services/io_board/sanitizer.py:54-60 | All channels are blank again; the glitch count stays |
| Sanitizer.LoadcellSanitizer.QuantizeChannel | src/services/io_board/sanitizer.py:148-168 | Value and new bin of one channel are those of the quantizer function |
| Sanitizer.LoadcellSanitizer.Smooth | src/services/io_board/sanitizer.py:87-100 | The optional median layer: stale windows are dropped, three readings give their middle |
| Sanitizer.LoadcellSanitizer.Guard | src/services/io_board/sanitizer.py:102-124 | The sign guard corrects, relatches or passes, and counts the streak |
| Sanitizer.LoadcellSanitizer.SanitizeChannel | src/services/io_board/sanitizer.py:78-133 | One reading is one step of the channel's state machine; other channels are untouched |
| Sanitizer.LoadcellSanitizer.Sanitize | src/services/io_board/sanitizer.py:62-137 | One frame is one step of every channel; markers and readings beyond the channels come out as they went in |
| SanitizerOutput.BinFollows | src/services/io_board/sanitizer.py:126-129 | Over any run the bin is the quantizer's, run over the stored values from no bin |
| SanitizerOutput.EmittedTextIsQuantized | src/services/io_board/sanitizer.py:126-133 | With quantization on, after any reading of any run the bin is a multiple of the step near the stored value, and the emitted text is the reading's own if that reads as the bin, else six characters that read as it exactly if it is an integer of at most 99999 |
| SanitizerOutput.EmittedTextIsStored | src/services/io_board/sanitizer.py:149-151 | With quantization off the text carries the stored value in the same sense |
| SanitizerOutput.IntegerStepsReadBack | src/services/io_board/sanitizer.py:129-173 | For integer steps every emitted text reads as the bin, as long as that is at most 99999 |
| SanitizerOutput.MarkerPasses | src/services/io_board/sanitizer.py:79-82 | Markers come out as they went in and change nothing |
| GlitchRemoval.StreakCountsCorrections | src/services/io_board/sanitizer.py:110-124 | In every run the streak is the number of corrections at its end and stays below the relatch limit |
| GlitchRemoval.RelatchExactness | src/services/io_board/sanitizer.py:102-127 | The stored magnitude is the input's; the stored sign changes on a same-magnitude inversion exactly if it completes a run of relatch-many inverted readings |
| GlitchRemoval.PersistentChangeRelatches | src/services/io_board/sanitizer.py:110-122 | A run of inverted readings keeps the old sign until the relatch limit and takes the new one exactly there |
| GlitchRemoval.MarkersInvisible | src/services/io_board/sanitizer.py:79-82 | The two error markers, and texts that float() rejects, leave the channel's state untouched wherever they fall |
| GlitchRemoval.GlitchRemovalIff | src/services/io_board/sanitizer.py:78-127 | For readings of one sign the corrupted run stores what the clean run stores after every prefix, exactly if every flip is fresh, large enough, of similar magnitude and below the relatch limit |
| GlitchRemoval.GlitchRemovalTextsIff | src/services/io_board/sanitizer.py:78-133 | The emitted texts agree, quantizer included, exactly if every flipped reading the quantizer leaves alone was already in the emitted spelling |
| GlitchRemoval.IntegerGlitchesVanish | src/services/io_board/sanitizer.py:62-133 | For integer readings the corrupted run's output equals the clean run's |
| GlitchRemoval.FractionalGlitchShows | src/services/io_board/sanitizer.py:129-133 | A fractional run, default configuration, whose output differs from the clean run's |
| MedianLayer.MedianProtectsIff | src/services/io_board/sanitizer.py:84-100 | With the median on and readings of one sign, the guard's input has that sign at every reading of the run exactly if every flipped reading comes after two recent untouched ones |
| MedianLayer.MedianKeepsGuardIdle | src/services/io_board/sanitizer.py:84-127 | In such a run the guard never corrects, and the stored value has the true sign and lies between the smallest and largest true reading of the last three |
| MedianLayer.ChannelRemembers | src/services/io_board/sanitizer.py:89-94 | The window holds the last readings, up to three, without a stale gap between them, markers left out |
| Filters.SmoothStaysInRange | src/io_board/filters.py:127-146 | The smoothed value lies between bounds of the readings since the reset |
| Filters.SmoothConvergesExactly | src/io_board/filters.py:141-144 | On constant input the distance shrinks exactly by (1 - alpha) per reading |
| Filters.ExponentialSmoothingFilter.constructor | src/io_board/filters.py:118-125 | The weight is the given one between 0 and 1, 0 below and 1 above |
| Filters.ExponentialSmoothingFilter.Filter | src/io_board/filters.py:127-146 | The first reading is taken as it is, every further one is mixed in by the weight, and the output is the smoothing of all readings since the reset; markers pass through and leave no trace |
| Filters.ExponentialSmoothingFilter.Reset | src/io_board/filters.py:148-151 | A reset forgets all readings |
| Filters.CovarianceStep | src/io_board/filters.py:197-208 | After one update the covariance is positive and below the measurement noise |
| Filters.CovarianceContraction | src/io_board/filters.py:197-208 | With f(p) = p^2 + q p - q r one update multiplies f by (r / (p + q + r))^2 exactly, and moves p against f |
| Filters.CovarianceIgnoresReadings | src/io_board/filters.py:197-208 | The covariance depends on the number of readings only |
| Filters.CovarianceConverges | src/io_board/filters.py:197-208 | In every run f keeps its sign, so the steady state is never crossed, and shrinks geometrically |
| Filters.CovarianceMonotone | src/io_board/filters.py:197-208 | In every run the covariance moves monotonically towards the steady state |
| Filters.EstimateStaysInRange | src/io_board/filters.py:182-210 | The estimate lies between bounds of the readings since the reset |
| Filters.EstimateConverges | src/io_board/filters.py:197-205 | On constant input the distance is at most (r / (q + r))^n of the start |
| Filters.UpdateCorrects | src/io_board/filters.py:197-208 | The defining equations of one correction: the estimate moves by the predicted covariance's share, the covariance keeps the noise's share |
| Filters.EstimateDistanceExact | src/io_board/filters.py:197-208 | On constant input the distance shrinks by exactly the product of the noise shares |
| Filters.KalmanFilter.constructor | src/io_board/filters.py:168-180 | Both noise parameters are at least the floor |
| Filters.KalmanFilter.Filter | src/io_board/filters.py:182-210 | The first reading is taken as it is with covariance 1, every further one satisfies the correction equations, and the output is the estimate over all readings since the reset; markers pass through and leave no trace |
| Filters.KalmanFilter.Reset | src/io_board/filters.py:212-216 | A reset forgets all readings |
| Polling.RosterStaysConsistent | src/services/polling/polling_service.py:57-76 | Subscribing and unsubscribing keep the wake event set exactly while somebody is subscribed |
| Polling.PollingService.AddSubscriber | src/services/polling/polling_service.py:57-65 | The set grows by the queue and the event follows |
| Polling.PollingService.RemoveSubscriber | src/services/polling/polling_service.py:67-76 | The set loses the queue, if it was there, and the event follows |
| Polling.PollingService.Broadcast | src/services/polling/polling_service.py:95-96 | Every subscriber's queue gains the data once, at its end |
| Polling.RosterStep | src/services/polling/polling_service.py:78-110 | Every step of the loop or a subscriber keeps event, subscribers and idle polls in order |
| Polling.TimerStep | src/services/polling/polling_service.py:98-110 | Every step keeps the timer no earlier than the intervals of all finished polls |
| Polling.HistoryTells | src/services/polling/polling_service.py:57-110 | Every step adds to the history exactly what was done: joining, leaving, a poll begun, data sent with the interval in force, or a failure |
| Polling.FetchedIsBroadcast | src/services/polling/polling_service.py:90-96 | In every run the broadcasts are exactly the data fetched successfully, once each and in order |
| Polling.FetchReachesSubscribers | src/services/polling/polling_service.py:93-96 | A successful fetch puts its data once at the end of every subscriber's queue, and nothing else changes any queue |
| Polling.SleepsExactly | src/services/polling/polling_service.py:98-110 | In every run the loop sleeps exactly until the interval, counted from the poll's start, is over, or the fixed interval after a failure |
| Polling.LoopNeverStalls | src/services/polling/polling_service.py:80-88 | In every run with somebody subscribed the next poll starts at once, or as soon as the sleep is over |
| Polling.PollingInRun | src/services/polling/polling_service.py:57-110 | In every run: event set exactly while subscribed, at most one poll starts with nobody subscribed, every queue holds what it is due, and poll starts are at least the interval in force at the earlier poll's end apart, failures included |
| Polling.HastyLeavePolls | src/services/polling/polling_service.py:67-88 | The run that breaks the promise: subscribe, unsubscribe, and only then does the woken loop resume and poll with nobody subscribed |
| Polling.LeaveIsHastyIff | src/services/polling/polling_service.py:67-88 | When the last subscriber leaves, a poll for nobody can follow at once exactly if the loop is woken and has not resumed |
| Polling.IdlePollIff | src/services/polling/polling_service.py:78-88 | In every run a step starts a poll with nobody subscribed exactly if it resumes the loop after such a leave, with no subscription, resumption or stop in between |
| Polling.NoIdlePollIff | src/services/polling/polling_service.py:78-88 | A run keeps the promise exactly if no such leave is pending whenever the loop resumes |
| Polling.CarefulLeavesNeverIdle | src/services/polling/polling_service.py:78-88 | Without such leaves no poll ever starts with nobody subscribed |
| Polling.MemberStretch | src/services/polling/polling_service.py:93-96 | A subscribed queue that does not leave receives every broadcast, subscribed again or not |
| Polling.OutsiderStretch | src/services/polling/polling_service.py:93-96 | A queue that is not subscribed receives nothing until it joins |
| Polling.SubscriptionSegment | src/services/polling/polling_service.py:57-96 | From the position where a queue joins, up to any later one at which it has not left, it receives exactly the broadcasts in between, once each and in order |
| FrameOrientation.RankStrictlyMonotone | tools/loadcell_diag.py:236-238 | Order statistics are strictly monotone, so the upper median is |
| FrameOrientation.MedianSplits | tools/loadcell_diag.py:236-238 | The median is the upper one: at most half lie below it and more than half are at most it |
| FrameOrientation.ConsideredIff | tools/loadcell_diag.py:242-250 | A channel is compared exactly if both readings exist and one of them reaches the threshold |
| FrameOrientation.NeverFlippedAgainstBoth | tools/loadcell_diag.py:251-254 | A tie decides for equal: no frame is flipped against both another and its negation |
| FrameOrientation.FlipDecisionExact | tools/loadcell_diag.py:240-254 | For coherent true frames the median comparison says flipped exactly if one of the two captured frames is negated |
| FrameOrientation.RelativeFlips | tools/loadcell_diag.py:240-254 | Every neighbouring pair is compared; the first frame is unflipped |
| FrameOrientation.Orientation | tools/loadcell_diag.py:256-260 | The prefix XOR explains the flips and marks at most half of the frames, ties in favour of the first frame |
| FrameOrientation.ExplanationsAgree | tools/loadcell_diag.py:256-258 | Two explanations of the same flips agree everywhere or nowhere |
| FrameOrientation.OrientationDecides | tools/loadcell_diag.py:256-260 | The result is the true negation, or its complement if the majority was negated |
| FrameOrientation.Recover | tools/loadcell_diag.py:240-260 | From the captured frames alone exactly the negated ones are marked if they are the minority, and repairing by the marks gives the true frames |
| FrameOrientation.RepairRestores | tools/loadcell_diag.py:281-283 | Negating the frames the tool marks gives all the true ones back if the negated were the minority, and all of them negated otherwise |
| FrameOrientation.Bursts | tools/loadcell_diag.py:264-272 | The burst lengths are those of the maximal runs of marked frames, in order, all of them, and sum to the number marked |

## Left out

- EngineLoadcells.CalibrationBarrier: orders frames by when they were received; an accepted frame may answer an earlier transmission with the same codes that arrived after the drain, and the code cannot tell.
- EngineBolt.BoltInRun: inherits the same limit for the sensor reading; the bookkeeping call before the command is part of the wait for the serial line.
- SerialTransaction.SerialLine.Fetch: the kinds of connection failure are one error here, because they are told apart by the operating system's message text.
- FrameCodec.ParsePrinted: parse failures are one outcome; their error codes depend on the wording of the parsing library's messages.
- Filters.KalmanFilter.Filter: IEEE rounding is not modelled here or anywhere else; arithmetic is over the reals; number texts as for the sanitizer.
- Readings.FormatTenthsReadsBack: ties of rounding to one decimal are decided on the real value, half to even; binary representation error is not modelled.
- Sanitizer.LoadcellSanitizer.Sanitize: for texts float() reads beyond an optional sign, digits and a fraction (exponents, underscores, surrounding blanks, infinities, NaN) it passes the text through where the code would read a number.
- Sanitizer.LoadcellSanitizer.SanitizeChannel: the same texts.
- GlitchRemoval.MarkersInvisible: the same texts count as unreadable here, while the code stores their value.
- Readings.FlipSignNegates: the same texts.
- Filters.ExponentialSmoothingFilter.Filter: the same texts.
- Number texts are an optional sign, digits and an optional fraction; exponents, underscores, surrounding blanks, infinities and NaN, which Python's float also reads, are treated as unreadable; the firmware's field is a sign and five characters, digits or digits with one decimal.
- Fairness of the locks and lower bounds on progress: tasks may overtake each other.
- The byte-level drain of stale input and the per-phase reader timeouts: their effects are the outcomes and delays of an attempt.
- Opening the port, low-latency mode and over-long reads: foreign calls, an attempt or an opening that fails.
- Consumers taking items from polling queues; a queue here is everything put into it.
- Door, error list, firmware version and reboot commands beyond their frames: plain transactions.
- Routers other than the deadbolt's, server-sent events, recording, error-state bookkeeping, logging and diagnostics text.
- The other sections of the diagnostic tool: statistics and printing.
