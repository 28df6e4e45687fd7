# alpha_hwr, modelled and proved

`alpha_hwr` is an ESPHome component that drives a Grundfos circulation pump over
Bluetooth Low Energy. This project models the parts of it whose correctness is an
argument rather than a glance, and proves that argument.

* **Telegrams.** The table-driven CRC of the firmware is the bit-serial one of the
  capture tool; every burst of up to sixteen wrong bits is caught, and seventeen is where
  that stops; so is every odd number of wrong bits, and every two unless they stand a
  multiple of 32767 bits apart, further than any telegram is long. Packets cut into records
  come back whole, link by link; of the capture tool's two reassemblers the incremental one
  finds on any bytes the first of the frames that the batch scan finds, and on well-formed
  telegrams both find exactly those, however the bytes were cut and the streams interleaved,
  each with the time at which it was complete; what the builders write, the parser reads
  back, and the answers to register reads in which telemetry arrives (`CrcTable`, `Crc`, `FrameCheck`,
  `ChecksumParity`, `ChecksumPeriod`, `CaptureScan`, `CapturePackets`, `CaptureTimes`,
  `FrameBuilder`, `FrameParser`).
* **Daylight saving.** Calendar arithmetic, "the Nth weekday of a month", and the routine
  that samples a timezone for a year and rebuilds its rule: it agrees with the rule the
  zone follows exactly when the daily samples tell the two changes apart, and then with no
  other rule than those the zone follows; a zone with any number of changes is listed
  exactly under the same condition, and refused unless there are none or two; and the
  verdict on whatever the pump may hold, for each of these zones (`CivilDate`, `DstProbe`,
  `DstAgreementProof`, `DstHistory`).
* **Schedule uploads.** A parser in the firmware, a printer in the bench tool and a hash
  in both: they accept the same lists, read back what was printed, and predict each
  other's hash; the hash notices every change of one byte, and every change of one cell
  of the schedule (`Text`, `ScheduleCodec`, `Fnv`, `LayerImages`, `UploadPrinter`,
  `UploadRoundTrip`, `CellHash`).
* **The link.** The connection manager as a state machine over its events, with what
  holds in every run: which failure reason is shown and stays on the surface, exactly when
  the pump is written to and everything else is asked for, what other devices' traffic can
  do, when timers act; the pairing-stall detector under it; the arbitration of the client's
  `auto_connect`; which control mode is believed, with a command in flight and without
  (`PairingStall`, `FailureHold`, `GapSecurity`, `ConnectionManager`, `ConnectionRuns`,
  `ConnectionWrites`, `ConnectionDuties`, `AutoConnect`, `ControlMode`).
* **Counter pooling.** Snapshots of counters that restart at every boot: the pooled total
  never exceeds the true one, and is exact when the tool's own ambiguity count is zero and
  every reboot comes strictly after a snapshot; two counters that lose their place are
  exact under a condition of their own; and what an ambiguity stands for (`NodeTotals`,
  `NodeCoverage`, `NodeAmbiguity`, `NodePool`, with `StableSort`).

`Numbers` holds the machine numbers that the modules share.

Code that updates state is modelled as methods and classes, each proved against a pure
function of its inputs or its old state; what the system promises is proved of those
functions, over all inputs, all runs or all reachable states.

`dafny verify dfyconfig.toml` checks everything.

## What the proofs found

* `build_geni_packet` refuses an APDU that would make LENGTH exceed 253, though
  `components/alpha_hwr/frame_builder.h:50-69` works out that LENGTH 255, a telegram of
  259 bytes, is legal. The model follows the code; nothing built is longer than 257 bytes.
* The pairing-stall detector reports refusals 3, 15, 27 and so on exactly when a clock
  that can be read off the trace stands at nothing as the run begins
  (`PairingStall.OnTimeExactlyWithoutPhase`); it does when signals arrive over an open link
  and links do not overlap. Any signal between two links, a security request, a bond or
  data, ends the run but not the clock, and the next run is reported on refusals 3 and 14
  (`PairingStall.SignalBetweenLinksMovesReminder`).
* A connection refused from inside the connection callback is marked as this node's own
  teardown, and `on_connection_opened` wipes the mark a few lines later. What keeps the
  cycle out of the count is then only the reason of its disconnect
  (`ConnectionRuns.RefusedOpenCounts`).
* A successful AUTH_CMPL drops the rank of a pairing stall before the stall is withdrawn,
  so the withdrawal finds nothing to do and "Pump not accepting pairing" stays on the
  surface, unheld, about a pump that has just bonded
  (`ConnectionRuns.BondLeavesStallTextFromStart`). A release leaves the text empty exactly
  when it is not an authentication (`ConnectionRuns.ReleaseClearsText`).
* The scheduler sequence is 32 bits wide. A stale discovery retry does nothing unless the
  sequence has moved by a whole multiple of 2^32 since it was scheduled, and then it does
  act (`ConnectionWrites.RetryActsUnlessMoved`, `ConnectionWrites.RetryActsAfterAFullTurn`).
* That `auto_connect` is off exactly when suspended, settling or in the boot hold survives
  an open that the client was not free to make if and only if no settle window was running,
  or the link was suspended, and, where settle windows are configured, no boot hold either
  (`AutoConnect.KeptExactlyOutsideHolds`). An open inside a
  settle window, with no connect behind it that the client was free to start, clears the
  window and strands the link (`AutoConnect.OpenInsideWindowStrands`); one inside the boot
  hold lets the boot timer cut a later settle window short
  (`AutoConnect.OpenInsideBootHoldCutsWindow`).
* A mode reply is documented to come with a three-byte header
  (`components/alpha_hwr/control_service.cpp:725`), and the code also takes one without. A
  bare reply that begins with two zero bytes (control source 0, mode AUTO) is taken for one
  with a header and read three bytes late, and so is misread unless the later bytes happen
  to spell the same report (`ControlMode.ReportReadsBack`, `ControlMode.BareReplyMisread`).
* The ambiguity test of `NodeTotals.add` lets a reboot through in exactly one situation:
  the new boot has watched precisely what the old one had, in precisely the time between the
  two snapshots (`NodeTotals.MissedExactlyAtTheBoundary`), which takes a reboot at the very
  moment of a snapshot (`NodeTotals.RebootAtTheSnapshotIsMissed`). The pooled watched time is
  short by what missed reboots leave out, and exact exactly when that is nothing, and so is
  every other total that keeps its place (`NodeTotals.WatchedExactIffNothingLost`,
  `NodeTotals.ExactIffNothingLost`). Exactness does not need complete snapshots.
* The comment beside that test (`tools/link_gap_report.py:338-346`) calls a hidden reboot
  exactly detectable. The flag is raised wherever one could hide, and in one case more,
  where the new reading takes up all the time that has passed and none can
  (`NodeAmbiguity.FlaggedExactlyWhenItCouldHide`).
* Two counters do need them. The intervals cut short and the time the checksum counter
  covered are counted again after every snapshot that leaves them out, and are right exactly
  when no snapshot takes them up again after a gap (`NodeCoverage.CutShortExactUnlessResumed`,
  `NodeCoverage.CrcTimeExactUnlessResumed`, `NodeCoverage.OneGapCountsTwice`).
* Both builders write their head before they copy, so a caller whose data lies in the output
  buffer ahead of its place sends the end of the head over and over instead; at its place or
  behind it, the data arrives as it was (`FrameBuilder.BuildGeniPacket`,
  `FrameBuilder.BuildDataObjectSet`).
* Three or more changes of a zone's offset in a year, or one, leave the probed rule invalid,
  as `components/alpha_hwr/dst_rule.h:270-290` intends, provided each lies behind a daily
  sample of its own; where one does not, the probe does not list them all
  (`DstHistory.ListedExactlyWhenSeenApart`, `DstHistory.ValidExactlyWithNoneOrTwo`).

## Model

| member | source | states |
|---|---|---|
| CrcTable.TableEntry | components/alpha_hwr/codec.cpp:9-42 | each of the 256 table constants is what eight bit steps make of its index in the high byte |
| Crc.CalcCrc16 | components/alpha_hwr/codec.cpp:46-52 | the table-driven loop equals the bit-by-bit register, from any start value, for every byte sequence |
| Crc.CalcCrc16Read | components/alpha_hwr/codec.cpp:56-58 | it is the complemented CRC that the capture tool computes bit by bit |
| Crc.BitSerialCrc16 | tools/geni_capture_scan.py:245-252 | the tool's loop of eight shifts a byte computes the same checksum as the table |
| Crc.CheckValue | components/alpha_hwr/codec.cpp:56-58 | the published check value: the digits 1 to 9 give 0xD64E |
| Crc.EightStepsLinear | tools/geni_capture_scan.py:247-251 | eight bit steps are linear over exclusive or |
| Crc.EightStepsNonZero | tools/geni_capture_scan.py:247-251 | eight bit steps send only zero to zero, so no register is lost |
| Crc.FeedLinear | components/alpha_hwr/codec.cpp:46-52 | checksumming is linear in the register and the data together |
| Crc.FeedConcat | components/alpha_hwr/codec.cpp:46-52 | a message may be fed in two parts |
| Crc.FeedOwnRegister | components/alpha_hwr/codec.cpp:46-52 | feeding a register its own two bytes leaves zero |
| Crc.U16RoundTrip | components/alpha_hwr/codec.cpp:85-95 | big-endian encoding and decoding of 16 bits undo each other at any offset |
| FrameCheck.AcceptedFeedsToZero | components/alpha_hwr/frame_parser.cpp:204-212 | a frame is accepted exactly when its covered bytes, checksum complemented, leave a zero register |
| FrameCheck.UndetectedErrors | components/alpha_hwr/frame_parser.cpp:204-212 | an error on an accepted frame goes unseen exactly when the error pattern itself leaves a zero register |
| FrameCheck.FeedIsBits | components/alpha_hwr/codec.cpp:46-52 | the byte-wise register equals one fed bit by bit, most significant first |
| FrameCheck.SixteenBitsNeverCancel | components/alpha_hwr/codec.cpp:9-52 | sixteen bits or fewer that begin with a one never bring the register to zero |
| FrameCheck.BurstRejected | components/alpha_hwr/frame_parser.cpp:204-212 | every burst of at most sixteen bits, anywhere behind the start byte of an accepted frame of any length, data and checksum alike, is rejected |
| FrameCheck.SeenByItsBits | components/alpha_hwr/frame_parser.cpp:204-212 | a changed copy of an accepted frame is accepted exactly when the bits that differ, fed on their own, leave a zero register |
| FrameCheck.SeventeenBitsEscape | components/alpha_hwr/frame_parser.cpp:204-212 | the bound is tight: in every accepted frame, at every byte behind the start byte, one burst of seventeen bits is accepted |
| ChecksumParity.StepKeepsParity | tools/geni_capture_scan.py:249-251 | a bit step never changes the parity of the register |
| ChecksumParity.OddErrorsRejected | components/alpha_hwr/frame_parser.cpp:204-212 | every odd number of wrong bits behind the start byte of an accepted frame is rejected, however far apart |
| ChecksumPeriod.TimesPower | components/alpha_hwr/codec.cpp:9-52 | multiplying the registers that m and n bit steps make of 1 gives that of m + n steps, so far powers can be squared together |
| ChecksumPeriod.PeriodIsExact | components/alpha_hwr/codec.cpp:9-52 | the bit steps come round after 32767 of them, and after no number but its multiples |
| ChecksumPeriod.TwoWrongBits | components/alpha_hwr/frame_parser.cpp:204-212 | in an accepted frame of any length, two wrong bits behind the start byte go unnoticed if and only if they stand a multiple of 32767 bits apart; in a frame of up to 4096 bytes never |
| CaptureScan.ScanFrames | tools/geni_capture_scan.py:255-272 | the indexed scan returns exactly the frames of the recursive definition |
| CaptureScan.Reassembler.Extend | tools/geni_capture_scan.py:225-240 | one fragment appends what draining the joined bytes completes, and keeps what that leaves |
| CaptureScan.DrainInTwo | tools/geni_capture_scan.py:227-240 | draining early and then more equals draining all at once |
| CaptureScan.StreamFrames | tools/geni_capture_scan.py:225-240 | in one stream, any sequence of fragments yields the frames of their concatenation |
| CapturePackets.TakeRecord | tools/geni_capture_scan.py:201-221 | what one record does to the half-received packets and which value it completes, as one step; the step is pinned by the three rows below and CutPacketsComeBack |
| CapturePackets.RecordReadsBack | tools/geni_capture_scan.py:201-210 | a record written with a connection, a boundary flag and a chunk is read as that connection, direction, flag and chunk |
| CapturePackets.OtherRecordsDoNothing | tools/geni_capture_scan.py:201-212 | a record without a header, or with the fourth boundary flag, changes nothing |
| CapturePackets.PacketReadsBack | tools/geni_capture_scan.py:214-224 | a packet on the attribute channel gives its value, byte for byte and under its handle, for exactly four opcodes |
| CapturePackets.OtherChannelsGiveNothing | tools/geni_capture_scan.py:219-220 | a packet on any other channel gives nothing |
| CapturePackets.LinksDoNotMix | tools/geni_capture_scan.py:151-177 | however the records of many links are interleaved, each link's values are those of its own records |
| CapturePackets.CutPacketsComeBack | tools/geni_capture_scan.py:151-177 | a link's attribute values, each written as a packet and cut into records anywhere, mixed with other links' records, come back once each, in order, byte for byte, under their handles and with the time of the last record |
| CaptureTimes.TimedFrames | tools/geni_capture_scan.py:191-242 | the loop over the records, with half-received packets link by link and a buffer for each stream, stamps every frame with the time of the record that completed it and sorts by time |
| CaptureTimes.AttStreams | tools/geni_capture_scan.py:148-180 | each stream's values in the order of their packets, joined |
| CaptureTimes.StreamsDoNotMix | tools/geni_capture_scan.py:223-240 | however streams are interleaved, each one's frames and remainder are those of its own bytes, joined |
| CaptureTimes.TimelineIsPrefixOfCensus | tools/geni_capture_scan.py:148-272 | on every capture and stream, the batch scan of the joined stream finds the timed frames and then only what the bytes still held back give |
| CaptureTimes.FramesInTime | tools/geni_capture_scan.py:191-242 | the frames come out in the order of their times, and from a capture whose records are in order just as they were completed |
| CaptureTimes.StampedOnCompletion | tools/geni_capture_scan.py:222-241 | each frame of each stream carries its direction and the time of the very value before which the stream's bytes did not hold it whole and with which they do |
| CaptureScan.FragmentationIrrelevant | tools/geni_capture_scan.py:225-240 | two cuttings of the same bytes yield the same frames and the same rest |
| CaptureScan.DrainIsPrefixOfBatch | tools/geni_capture_scan.py:225-272 | on any bytes the incremental frames are a prefix of the batch scan's |
| CaptureScan.OnlyWellFormed | tools/geni_capture_scan.py:225-272 | neither scan ever returns a frame that is not well formed |
| CaptureScan.BackToBack | tools/geni_capture_scan.py:225-272 | on any concatenation of well-formed frames both return exactly those frames, with nothing left over |
| CaptureScan.EmittedOnCompletion | tools/geni_capture_scan.py:227-240 | a frame comes out with its last byte and not before |
| FrameBuilder.BuildGeniPacket | components/alpha_hwr/frame_builder.cpp:153-202 | refuses above LENGTH 253 and writes nothing; else writes the sealed telegram, at most 257 bytes, and nothing behind it, wherever the APDU lies, the buffer itself included |
| FrameBuilder.BuildDataObjectSet | components/alpha_hwr/frame_builder.cpp:35-85 | refuses more than 59 bytes of data; else writes the SET telegram of the two ids and the data, and nothing behind it, wherever the data lies; without data the buffer's own bytes stand there |
| FrameBuilder.HandedByPosition | components/alpha_hwr/frame_builder.cpp:68-72 | data in the output buffer at or behind its place arrives as it was; from ahead of it, the end of the head repeats |
| FrameBuilder.SealedIsValid | components/alpha_hwr/frame_builder.cpp:75-85 | whatever is sealed carries a checksum the receiver accepts |
| FrameParser.ParseFrame | components/alpha_hwr/frame_parser.cpp:18-178 | the step-by-step parser computes the parse of the declared window, or Invalid |
| FrameParser.PayloadStaysInside | components/alpha_hwr/frame_parser.cpp:60-178 | on arbitrary input a payload lies behind the head of APDU 1, inside what that head declares, and before the checksum |
| FrameParser.TruncatedIsInvalid | components/alpha_hwr/frame_parser.cpp:47-69 | no proper part of a valid telegram is valid |
| FrameParser.TrailingBytesIgnored | components/alpha_hwr/frame_parser.cpp:47-75 | bytes behind the declared end never change the result |
| FrameParser.ParserAgreesWithScanner | components/alpha_hwr/frame_parser.cpp:18-116 | the firmware's parser and the capture tool accept the same telegrams of at least eight bytes |
| FrameParser.BuiltIsRecognised | components/alpha_hwr/frame_parser.cpp:18-116 | a built telegram, with anything behind it, is valid exactly when its APDU has a head, and its checksum matches |
| FrameParser.TelegramIsRecognised | components/alpha_hwr/frame_parser.cpp:18-80 | a telegram of either start byte, with anything behind it, is valid exactly when its APDU has a head, 0x24 a response and 0x27 a request |
| FrameParser.HeadDeclares | components/alpha_hwr/frame_parser.cpp:98-102 | a head declares its low six bits as length, whatever the upper two acknowledge |
| FrameParser.GenericReadsBack | components/alpha_hwr/frame_parser.cpp:162-174 | outside Class 10, requests and responses come back with class, head and the body the head declares |
| FrameParser.Class10ReadsBack | components/alpha_hwr/frame_parser.cpp:126-161 | in Class 10, requests and responses come back with head, both ids and the data the head covers, behind three more bytes for exactly the six answers to register reads |
| FrameParser.ShortClass10 | components/alpha_hwr/frame_parser.cpp:126-161 | a Class 10 telegram too short for its ids has no ids and no payload |
| FrameParser.GenericRoundTrip | components/alpha_hwr/frame_builder.cpp:153-202 | outside Class 10 the telegram carries its addresses, and the parser recovers class, head and the body of the first APDU, whatever follows the telegram |
| FrameParser.SetRoundTrip | components/alpha_hwr/frame_builder.cpp:35-85 | a SET carries start, addresses, Class 10, the SET operation and its length, and comes back with its sub-id, its object id and its data |
| CivilDate.ComputeDaysFromEpoch | components/alpha_hwr/dst_rule.h:181-188 | the two counting loops compute the day number |
| CivilDate.NextIsOneMore | components/alpha_hwr/dst_rule.h:162-188 | the next calendar date has the next number, across months, years and leap days |
| CivilDate.GregorianYears | components/alpha_hwr/dst_rule.h:162-188 | the days before each year are those of the Gregorian rule in closed form |
| CivilDate.MonthLengths | components/alpha_hwr/dst_rule.h:162-178 | months have 31 and 30 days as on the knuckles, and February the day more that its year has |
| CivilDate.NumbersOrderDates | components/alpha_hwr/dst_rule.h:181-188 | dates from 1970 are ordered as their numbers |
| CivilDate.CivilInverse | components/alpha_hwr/dst_rule.h:181-188 | every day number is that of exactly one date |
| CivilDate.WeekdaysCycle | components/alpha_hwr/dst_rule.h:191-198 | the weekday of the next date is the next weekday, Sunday after Saturday |
| CivilDate.ResolveTransitionDay | components/alpha_hwr/dst_rule.h:214-243 | the scan for the first match and the week-by-week walk compute the resolved day |
| CivilDate.ResolveIsTheDay | components/alpha_hwr/dst_rule.h:214-243 | the resolved day is exactly the Nth such weekday of the month, or the last one when there is no Nth; both directions |
| CivilDate.EncodeResolves | components/alpha_hwr/dst_rule.h:393-394 | a date written as weekday and occurrence resolves to itself in its year, fifth occurrences included |
| DstProbe.FindChange | components/alpha_hwr/dst_rule.h:355-373 | the bisection loop returns the bisected second and terminates |
| DstProbe.BisectIsExact | components/alpha_hwr/dst_rule.h:355-373 | between two samples with one change it finds the exact second of the change |
| DstProbe.ProbeHostDstRule | components/alpha_hwr/dst_rule.h:315-404 | the sampling loop with its counter and two slots computes the probed rule, for every zone and year |
| DstAgreementProof.ChangeReadsBack | components/alpha_hwr/dst_rule.h:374-398 | a change on a full local hour reads back as the transition that names it, local midnight included |
| DstAgreementProof.ProbeAgreesExactlyWhenSeenApart | components/alpha_hwr/dst_rule.h:315-449 | for a zone that follows a rule, either hemisphere, the verdict is AGREE if and only if each change is seen by a daily sample of the year and no sample interval holds both |
| DstAgreementProof.ProbeAgrees | components/alpha_hwr/dst_rule.h:315-449 | in particular for changes a day apart and a day inside the year |
| DstAgreementProof.VerdictOnAnyRule | components/alpha_hwr/dst_rule.h:408-449 | where the zone follows a rule, seen apart, the verdict on whatever the pump may hold: UNKNOWN if not valid, HOST_ONLY if not enabled, else AGREE or RULES_DIFFER by that year's two moments and the amount |
| DstAgreementProof.VerdictOnSteadyZone | components/alpha_hwr/dst_rule.h:431-449 | where the zone does not change, UNKNOWN, PUMP_ONLY or NEITHER, by whether the pump's rule is valid and enabled |
| DstAgreementProof.CoincidingIsReal | components/alpha_hwr/dst_rule.h:408-421 | transitions coincide only on a real day of the year, of one month and hour |
| DstAgreementProof.AgreesExactlyWithWhatIsFollowed | components/alpha_hwr/dst_rule.h:315-449 | so the rules judged to agree are exactly those the zone follows |
| DstAgreementProof.SteadyZoneNeverShifts | components/alpha_hwr/dst_rule.h:261-404 | a zone without changes is probed as valid and not enabled |
| DstHistory.ListedExactlyWhenSeenApart | components/alpha_hwr/dst_rule.h:341-402 | for a zone with any number of changes, the probe lists exactly those, to the second and with their steps, if and only if each lies behind a daily sample of its own |
| DstHistory.ValidExactlyWithNoneOrTwo | components/alpha_hwr/dst_rule.h:261-297 | such a zone is probed as valid exactly with none or two changes, and as enabled exactly with two |
| DstHistory.VerdictByCount | components/alpha_hwr/dst_rule.h:261-449 | beside a zone with any number of changes, exactly when the verdict is UNKNOWN, PUMP_ONLY, NEITHER or HOST_ONLY |
| DstHistory.VerdictOutsideYears | components/alpha_hwr/dst_rule.h:315-333 | outside 1970 to 2100 the verdict is UNKNOWN |
| DstAgreementProof.DecodedRuleAlwaysResolves | components/alpha_hwr/dst_rule.h:113-160 | a rule accepted from the pump and enabled names real days in every year |
| DstAgreementProof.RuleReadsBack | components/alpha_hwr/dst_rule.h:127-160 | a rule written field by field into ten bytes is read back, and is valid unless it is enabled with fields out of range |
| DstAgreementProof.DecodedIsAccepted | components/alpha_hwr/dst_rule.h:127-160 | nothing shorter is valid, and what is valid and enabled has its fields in range |
| Text.SplitText | components/alpha_hwr/schedule_codec.cpp:13-25 | the scanning loop computes the pieces between delimiters |
| Text.SplitJoin | components/alpha_hwr/schedule_codec.cpp:13-25 | splitting what was joined gives the pieces back, when none holds the delimiter |
| Text.JoinSplit | components/alpha_hwr/schedule_codec.cpp:13-25 | joining what was split gives the text back, whatever it holds |
| Text.ParseUintText | components/alpha_hwr/schedule_codec.cpp:28-37 | one to three digits become their value, anything else is refused |
| Text.ParseUintOfDecimal | components/alpha_hwr/schedule_codec.cpp:28-37 | an integer printed in decimal is read as itself exactly when it lies in 0 to 999, and refused otherwise |
| Text.HexReadsBack | components/alpha_hwr/schedule_codec.cpp:195-197 | the sixteen hash digits are lower-case and spell the number |
| ScheduleCodec.ParseUploadPayload | components/alpha_hwr/schedule_codec.cpp:41-124 | the method computes the parse, each refusal in the order the code makes it |
| ScheduleCodec.CollectEntries | components/alpha_hwr/schedule_codec.cpp:66-120 | the loop over the pieces with its grid of seen cells refuses exactly the repeated cells |
| ScheduleCodec.ParsedEntriesAreGrid | components/alpha_hwr/schedule_codec.cpp:66-120 | accepted entries are in range and no two share a cell |
| ScheduleCodec.GridFits | components/alpha_hwr/schedule_codec.cpp:60-64 | distinct cells in range number at most 35, by pigeonhole |
| Fnv.Fnv1a64 | components/alpha_hwr/schedule_codec.cpp:141-148 | the loop computes FNV-1a, 64 bits, modulo 2^64 |
| Fnv.XorBitsInjective | components/alpha_hwr/schedule_codec.cpp:144 | exclusive or with one byte loses nothing |
| Fnv.MultiplyInjective | components/alpha_hwr/schedule_codec.cpp:145 | multiplying by the odd prime modulo 2^64 loses nothing |
| Fnv.OneByteTells | components/alpha_hwr/schedule_codec.cpp:141-148 | inputs of one length that differ in exactly one byte never share a hash |
| Fnv.PublishedValue | components/alpha_hwr/schedule_codec.cpp:141-148 | the published value for the one byte "a" |
| LayerImages.BuildLayerImage | components/alpha_hwr/schedule_codec.cpp:126-139 | the image written in place holds each of the layer's entries in its day and zeros elsewhere |
| LayerImages.OrderIrrelevant | components/alpha_hwr/schedule_codec.cpp:126-139 | any order of the same entries gives the same image |
| LayerImages.CanonicalizeLayerImage | components/alpha_hwr/schedule_codec.cpp:171-181 | in place, a disabled cell's five other bytes become zero and nothing else changes |
| LayerImages.CanonicalIsStable | components/alpha_hwr/schedule_codec.cpp:171-181 | canonicalizing is idempotent and leaves a built image alone |
| LayerImages.ComputeScheduleHash | components/alpha_hwr/schedule_codec.cpp:183-199 | the hash is that of the five canonical images and the flag |
| LayerImages.FlagChangesHash | components/alpha_hwr/schedule_codec.cpp:183-199 | flipping only the flag always changes the hash text |
| LayerImages.TimeByteChangesHash | components/alpha_hwr/schedule_codec.cpp:183-199 | changing one time byte of one enabled cell always changes the hash text |
| LayerImages.StaleBytesIgnored | components/alpha_hwr/schedule_codec.cpp:171-199 | the bytes of a disabled cell never reach the hash |
| LayerImages.ActionIgnored | components/alpha_hwr/schedule_codec.cpp:171-199 | nor do the action byte of a cell and which nonzero byte enables it |
| CellHash.MovedAtMost | components/alpha_hwr/schedule_codec.cpp:144 | exclusive or with a byte moves the register by no more than the byte |
| CellHash.OneCellTells | components/alpha_hwr/schedule_codec.cpp:126-199 | two schedules that differ in exactly one cell, in its times or in whether it is on, never share a hash text |
| UploadPrinter.CanonicalHash | tools/write_bench.py:399-416 | the tool's hash of an entry list is the firmware's hash of the images built from it |
| UploadPrinter.BuildUpload | tools/write_bench.py:419-459 | whatever reads the integers, accepts exactly the valid flags and lists of readable, valid, distinct entries, and returns their text and hash |
| UploadRoundTrip.EntryRoundTrip | components/alpha_hwr/schedule_codec.cpp:66-115 | a printed entry is accepted exactly when the tool accepts it, and read as itself |
| UploadRoundTrip.SameListsAccepted | components/alpha_hwr/schedule_codec.cpp:41-124 | the firmware accepts what the tool accepts and nothing else, and reads back the same flag, 0, 1 or -1, and the same entries in the same order |
| UploadRoundTrip.BuiltUploadIsAccepted | tools/write_bench.py:419-459 | from the command line to the firmware: an upload that is built is accepted, entry for entry, under the hash that came with it |
| UploadRoundTrip.LengthGuardIsIdle | tools/write_bench.py:424-425 | the guard against more than 35 entries refuses no list whose cells are in range and distinct |
| UploadRoundTrip.PredictedHashIsReported | tools/write_bench.py:399-459 | the hash the tool predicts is the one the firmware computes from what it parsed |
| PairingStall.PairingStallDetector.OnConnectionOpened | components/alpha_hwr/pairing_stall.h:170-178 | opens a cycle, which a stored bond takes out of the count at once |
| PairingStall.PairingStallDetector.OnDisconnected | components/alpha_hwr/pairing_stall.h:208-260 | closes the cycle: the four fields and the report, in every case |
| PairingStall.CountIsStreak | components/alpha_hwr/pairing_stall.h:208-236 | on any trace the count is the number of refusals in a row, defined on the trace alone, cut off at 255 |
| PairingStall.StalledMeansThreeRefusals | components/alpha_hwr/pairing_stall.h:272 | stalled() holds exactly when that number is at least 3 |
| PairingStall.ReportsAreDue | components/alpha_hwr/pairing_stall.h:236-260 | on any trace a report falls on refusal 3 and then on every twelfth tick of a clock that runs on between runs, both read off the trace |
| PairingStall.ReportsEveryTwelfth | components/alpha_hwr/pairing_stall.h:236-260 | with links in order, reports fall exactly on refusals 3, 15, 27 and so on for ever, saturation included |
| PairingStall.TwelfthsExactlyWithoutPhase | components/alpha_hwr/pairing_stall.h:236-260 | of the twelve places that clock can start from, only nothing gives refusals 3, 15, 27 and so on |
| PairingStall.OnTimeExactlyWithoutPhase | components/alpha_hwr/pairing_stall.h:236-260 | the run that begins after a trace is reported on 3, 15, 27 and so on if and only if that clock stands at nothing |
| PairingStall.SignalBetweenLinksMovesReminder | components/alpha_hwr/pairing_stall.h:275-297 | after any signal between links it does not: 3 and 14 |
| GapSecurity.AddrIsSet | components/alpha_hwr/gap_security_policy.h:59-69 | true exactly of a non-null address with some byte that is not zero |
| GapSecurity.AddrMatches | components/alpha_hwr/gap_security_policy.h:71-86 | true exactly when both addresses are there, the peer's is not all zero and all six bytes agree |
| ConnectionManager.BLEConnectionManager.SubscribeToNotifications | components/alpha_hwr/ble_connection_manager.cpp:189-293 | which of register, write and callback are reached, and which reason is latched at which rank |
| ConnectionManager.BLEConnectionManager.HandleConnectionOpened | components/alpha_hwr/ble_connection_manager.cpp:393-493 | the new state and the effects of an open, refused from the callback or not |
| ConnectionManager.BLEConnectionManager.HandleServiceDiscoveryComplete | components/alpha_hwr/ble_connection_manager.cpp:505-575 | subscribes, defers, retries or reports, by what was found, as one step; which it is in every run is ConnectionDuties.SubscribesExactly and AsksExactly |
| ConnectionManager.BLEConnectionManager.HandleNotification | components/alpha_hwr/ble_connection_manager.cpp:577-608 | data releases what data refutes and ends a stall |
| ConnectionManager.BLEConnectionManager.HandleAuthComplete | components/alpha_hwr/ble_connection_manager.cpp:610-746 | the pump's result settles encryption; another device's does nothing |
| ConnectionManager.BLEConnectionManager.HandleDisconnect | components/alpha_hwr/ble_connection_manager.cpp:802-882 | closes the cycle, latches the reason the hold admits and resets the link |
| ConnectionManager.BLEConnectionManager.HandleGattcEvent | components/alpha_hwr/ble_connection_manager.cpp:748-887 | every GATT event is exactly one step of the state machine, a failed open none |
| ConnectionManager.BLEConnectionManager.HandleGapEvent | components/alpha_hwr/ble_connection_manager.cpp:889-1023 | every GAP event is exactly one step of the state machine |
| ConnectionManager.BLEConnectionManager.OnSessionReady | components/alpha_hwr/ble_connection_manager.cpp:378-391 | withdraws exactly what a ready session releases |
| ConnectionManager.BLEConnectionManager.OnPumpReady | components/alpha_hwr/ble_connection_manager.cpp:366-376 | withdraws exactly what a usable pump releases |
| ConnectionManager.BLEConnectionManager.RunTimer | components/alpha_hwr/ble_connection_manager.cpp:555-563 | a timer whose sequence has moved on does nothing, and only a retry searches |
| ConnectionManager.BLEConnectionManager.OnForcedDisconnect | components/alpha_hwr/ble_connection_manager.cpp:302-325 | latches the reason, excuses the cycle and hangs up |
| ConnectionManager.BLEConnectionManager.OnClearLocalTeardown | components/alpha_hwr/ble_connection_manager.h:150-154 | forgets exactly the text of this node's own teardown |
| ConnectionRuns.HoldsAreHonest | components/alpha_hwr/ble_connection_manager.cpp:243-391 | in every run a hold has a nonempty text, never that of a local teardown; a deferral waits on encryption; on an open link a stall is held only while stalled |
| ConnectionRuns.StepKeepsGood | components/alpha_hwr/ble_connection_manager.cpp:243-882 | every event keeps the invariant, in which a held text is one that the fault of its rank writes |
| ConnectionRuns.HoldGivesWay | components/alpha_hwr/failure_hold.h:168-279 | a held reason stays, or gives way to one of at least its rank that the event can bring, or is released by an event that speaks to its rank |
| ConnectionRuns.RankNeverFalls | components/alpha_hwr/failure_hold.h:168-279 | over a run without such a release the held rank never falls |
| ConnectionRuns.AuthReasonSurvives | components/alpha_hwr/failure_hold.h:152-172 | an authentication failure survives, word for word, everything but the pump's next authentication result and session-ready |
| ConnectionRuns.ReleaseClearsText | components/alpha_hwr/ble_connection_manager.cpp:342-391 | every release clears the text with the hold, and only a successful authentication leaves it, or the words of the subscription that waited for it and failed |
| ConnectionRuns.BondLeavesStallText | components/alpha_hwr/ble_connection_manager.cpp:667-671 | bonding leaves a refuted stall on show exactly when no waiting subscription fails; a security request withdraws it |
| ConnectionRuns.BondLeavesStallTextFromStart | components/alpha_hwr/ble_connection_manager.cpp:667-671 | a run from the start that gets there: three refused links, and the bond over an open fourth |
| ConnectionRuns.HeldStallIsThreeRefusals | components/alpha_hwr/ble_connection_manager.cpp:415-416 | a stall held on an open link stands for three refusals in a row of the events the detector was told |
| ConnectionRuns.RefusedOpenCounts | components/alpha_hwr/ble_connection_manager.cpp:401-416 | a connection refused from the callback is counted exactly when its disconnect is not a link loss |
| ConnectionRuns.ForeignTrafficIsInvisible | components/alpha_hwr/ble_connection_manager.cpp:610-640 | leaving other devices' security traffic out of a run changes neither the final state nor any effect |
| ConnectionRuns.OnlyThePumpIsAnswered | components/alpha_hwr/gap_security_policy.h:88-113 | in every run only the pump's pairing requests are answered, and accepted only with pairing enabled |
| ConnectionWrites.NeverWritesWhileNegotiating | components/alpha_hwr/ble_connection_manager.cpp:524-537 | in no run is the notification-enable write issued between an accepted encryption request and what settles it |
| ConnectionWrites.DeferredOnceOrCancelled | components/alpha_hwr/ble_connection_manager.cpp:646-733 | a deferred subscription is tried once by the pump's successful authentication, not before and not again, unless a failure, a disconnect or a new open cancels it |
| ConnectionWrites.RetryActsUnlessMoved | components/alpha_hwr/ble_connection_manager.cpp:555-563 | a scheduled retry acts exactly when the sequence has moved by a multiple of 2^32 since |
| ConnectionWrites.StaleRetryDoesNothing | components/alpha_hwr/ble_connection_manager.cpp:555-563 | so one overtaken by a disconnect, an open or another retry does nothing, in any log shorter than 2^32 |
| ConnectionWrites.RetryActsAfterAFullTurn | components/alpha_hwr/ble_connection_manager.cpp:873 | and after 2^32 disconnects it does act |
| ConnectionWrites.AtMostThreeRetries | components/alpha_hwr/ble_connection_manager.cpp:549-570 | no link gets more than three discovery retries |
| ConnectionDuties.WaitingIsDeferred | components/alpha_hwr/ble_connection_manager.cpp:528-545 | in every run a subscription is put off exactly while one waits in the log: everything found while encryption was negotiated, and nothing settled since |
| ConnectionDuties.SubscribesExactly | components/alpha_hwr/ble_connection_manager.cpp:189-293 | in every run the subscription is tried exactly when all is found and no encryption is negotiated, or the bond comes to one that waits; registration, write and callback follow in that order exactly as far as the peer lets them |
| ConnectionDuties.AsksExactly | components/alpha_hwr/ble_connection_manager.cpp:393-1023 | in every run, exactly when the link is hung up, encryption requested, a request answered, a timer set, a search repeated and the component told, by the log alone |
| ConnectionDuties.StallReportedWhenDue | components/alpha_hwr/ble_connection_manager.cpp:802-860 | in every run a stall is reported exactly when the detector's trace says one is due |
| ConnectionDuties.FailuresAreShown | components/alpha_hwr/ble_connection_manager.cpp:243-325 | in every run a failed search, subscription, authentication or watchdog goes on show at its own rank exactly when nothing graver is held |
| ConnectionDuties.DisconnectIsShown | components/alpha_hwr/ble_connection_manager.cpp:802-882 | in every run a disconnect shows the stall after three refusals in a row unless something graver is held, and else its own reason if nothing is |
| ConnectionDuties.OwnTeardownIsForgotten | components/alpha_hwr/ble_connection_manager.cpp:802-882 | the reason of this node's own teardown can be forgotten, and no other |
| ConnectionDuties.LetGoExactlyWhenRefuted | components/alpha_hwr/failure_hold.h:168-279 | rank by rank, a held reason is let go by exactly the events that refute it |
| ConnectionDuties.HealthyLinkLetsGo | components/alpha_hwr/failure_hold.h:168-279 | from any state, one link on which all goes well lets go of whatever is held |
| FailureHold.AdmitsByGravity | components/alpha_hwr/failure_hold.h:87-162 | a reason gives way exactly to those as grave or graver, in the order NONE, READY, DATA, PAIRING_STALL, SUBSCRIBE, AUTH |
| AutoConnect.AlphaHwrComponent.SetSuspended | components/alpha_hwr/alpha_hwr.cpp:1001-1076 | suspending may be repeated, releasing twice does nothing, and a release leaves a hold in force |
| AutoConnect.AlphaHwrComponent.DisconnectionCallback | components/alpha_hwr/alpha_hwr.cpp:341-363 | a settle window starts only unsuspended, configured and bonded |
| AutoConnect.AlphaHwrComponent.ParseDevice | components/alpha_hwr/alpha_hwr.cpp:619-655 | the settle timer starts at the pump's first advertisement inside a window |
| AutoConnect.AlphaHwrComponent.SettleTimeout | components/alpha_hwr/alpha_hwr.cpp:634-653 | ends the window and gives auto_connect back unless suspended |
| AutoConnect.AlphaHwrComponent.BootTimeout | components/alpha_hwr/alpha_hwr.cpp:44-62 | ends the boot hold and gives auto_connect back unless suspended |
| AutoConnect.OffMeansHeld | components/alpha_hwr/alpha_hwr.cpp:40-64 | in every reachable state auto_connect is off exactly when suspended, in the boot hold or in a settle window |
| AutoConnect.ReadOffEvents | components/alpha_hwr/alpha_hwr.cpp:153-363 | in every run, suspension, window, boot hold, auto_connect and all that the manager and the scheduler were asked are what the events alone say: a hang-up for each suspend and each link opened under one, one timer for each window |
| AutoConnect.SuspendLasts | components/alpha_hwr/alpha_hwr.cpp:153-171 | nothing but a release ends a suspend: no timer, open or disconnect |
| AutoConnect.HoldOutlastsSuspends | components/alpha_hwr/alpha_hwr.cpp:1040-1072 | a hold lasts until its own timer, and that timer starts at the same advertisement, whatever is suspended and released meanwhile |
| AutoConnect.NeverStranded | components/alpha_hwr/alpha_hwr.cpp:619-655 | from every reachable state a release, an advertisement and the timers give auto_connect back |
| AutoConnect.SuspendThenRelease | components/alpha_hwr/alpha_hwr.cpp:1001-1076 | a suspend and a release leave holds, timers and auto_connect as they found them |
| AutoConnect.KeptExactlyOutsideHolds | components/alpha_hwr/alpha_hwr.cpp:153-176 | "off exactly when suspended, settling or boot-holding" holds for ever after an open, a connect or a disconnect from a reachable state, each if and only if a condition on flags, holds and configuration before it |
| AutoConnect.OpenInsideWindowStrands | components/alpha_hwr/alpha_hwr.cpp:172-176 | an open inside a window, with no connect behind it, leaves auto_connect off through every run without a suspend or a bonded disconnect |
| AutoConnect.StrandedFromStart | components/alpha_hwr/alpha_hwr.cpp:172-176 | a run from the start to such an open |
| AutoConnect.OpenInsideBootHoldCutsWindow | components/alpha_hwr/alpha_hwr.cpp:44-61 | an open inside the boot hold, and possible events after it, end with auto_connect on in the middle of a settle window |
| ControlMode.ControlService.NoteModeCommanded | components/alpha_hwr/control_service.cpp:974-983 | the commanded mode is pending, current and valid, with no attempts made |
| ControlMode.ControlService.BeginSync | components/alpha_hwr/control_service.cpp:156-158 | a sync begun while a command is in flight expects the commanded mode, whatever was reported meanwhile; one begun with nothing valid expects none |
| ControlMode.ControlService.InvalidateCache | components/alpha_hwr/control_service.h:402-454 | drops the mode's validity and any command in flight, and keeps the slots |
| ControlMode.ControlService.UpdateModeFromNotification | components/alpha_hwr/control_service.cpp:77-139 | slot, mode, run state and source after a notification, stale or not, as one step; that the pump is believed is PumpIsBelieved |
| ControlMode.ControlService.HandleModeReply | components/alpha_hwr/control_service.cpp:714-868 | the same for a reply to a read, with what the caller is told |
| ControlMode.ControlService.HandleSyncReply | components/alpha_hwr/control_service.cpp:156-203 | retry, adopt or go on, by what the sync expected and was told |
| ControlMode.ReportReadsBack | components/alpha_hwr/control_service.cpp:723-741 | a reply reads back as the report in it behind its header; a bare one exactly when it does not begin with two zeros, or the bytes three on spell the same report |
| ControlMode.RefusedExactly | components/alpha_hwr/control_service.cpp:723-741 | a payload is no report exactly when it is under ten bytes or its mode is above 254 |
| ControlMode.BareReplyMisread | components/alpha_hwr/control_service.cpp:723-741 | a bare reply of a pump in AUTO at constant speed is read as another mode and source |
| ControlMode.PendingKeepsMode | components/alpha_hwr/control_service.h:454-480 | in every run, while a command is in flight the mode is the commanded one and valid |
| ControlMode.CommandEnds | components/alpha_hwr/control_service.cpp:89-98 | a command in flight ends when its mode is reported, a sync gives up or the cache is invalidated, and not otherwise |
| ControlMode.PumpIsBelieved | components/alpha_hwr/control_service.cpp:77-98 | in every run, with no command in flight the mode is valid exactly if something was commanded or reported since the last invalidation, and is what was last |
| ControlMode.ShownIsCurrent | components/alpha_hwr/control_service.cpp:77-203 | in every run the mode the component was last told is the one held |
| ControlMode.OperationIsShown | components/alpha_hwr/control_service.cpp:77-203 | and comes with the operation mode of the report, 0 for a command |
| ControlMode.SyncGoesOnExactly | components/alpha_hwr/control_service.cpp:156-203 | a sync fails, schedules a retry or goes on to the configuration, each under its exact condition |
| ControlMode.FailedReadSaysNothing | components/alpha_hwr/control_service.cpp:714-722 | a failed read changes nothing but that a sync fails |
| ControlMode.SourceFollowsReports | components/alpha_hwr/control_service.cpp:100-139 | in every run, whether the pump runs and who commands it are what the last reports say, and are known exactly if there is one since the last invalidation |
| ControlMode.SlotsFollowReports | components/alpha_hwr/control_service.cpp:141-154 | each setpoint slot holds the last setpoint reported under its own mode |
| ControlMode.AtMostFourRetries | components/alpha_hwr/control_service.cpp:166-185 | between commands there are at most four sync retries, and the attempt counter is their number |
| ControlMode.OneCommandFourRetries | components/alpha_hwr/control_service.cpp:166-185 | one command, from any state, causes at most four |
| ControlMode.FifthSyncAdopts | components/alpha_hwr/control_service.cpp:166-203 | a pump that never applies a command is retried four times and believed the fifth |
| NodeTotals.NodeTotals.AddRecord | tools/link_gap_report.py:307-382 | one record's effect on every total, on the reset and ambiguity counts and on the baselines |
| NodeTotals.ResetIsReboot | tools/link_gap_report.py:328-334 | every reset counted is a real reboot |
| NodeTotals.NeverTooMuch | tools/link_gap_report.py:307-382 | pooled watched time and every threshold's count never exceed the true totals, with hidden reboots and with fields left out of snapshots |
| NodeTotals.MissedExactlyAtTheBoundary | tools/link_gap_report.py:335-348 | with nothing ambiguous, a reboot goes unseen if and only if the new reading equals the old one and the time between the snapshots |
| NodeTotals.RebootIsReset | tools/link_gap_report.py:335-348 | so with reboots strictly after the snapshots before them, each is seen as a reset |
| NodeTotals.ExactWhenNoneMissed | tools/link_gap_report.py:350-382 | when no reboot is missed, every total is exact, clocks and ambiguities aside |
| NodeTotals.ExactIffNothingLost | tools/link_gap_report.py:350-382 | every field's total is short by exactly what it left out where it was differenced against another boot's count, and exact if and only if each such count was nothing |
| NodeTotals.WatchedExactIffNothingLost | tools/link_gap_report.py:350-382 | the watched time is short by what missed reboots leave out, and exact if and only if that is nothing |
| NodeTotals.ExactWhenUnambiguous | tools/link_gap_report.py:335-382 | with nothing ambiguous, sound clocks and reboots strictly after snapshots, each total is exactly the sum over boots of the boot's last reading |
| NodeTotals.RebootAtTheSnapshotIsMissed | tools/link_gap_report.py:335-348 | a reboot at the very moment of a snapshot can escape both counts |
| NodeAmbiguity.FlaggedExactlyWhenItCouldHide | tools/link_gap_report.py:335-348 | a difference is flagged exactly when an honest node with a sound clock could have rebooted behind it, or the new reading takes up all the time passed and that exceeds the old one |
| NodeAmbiguity.CountsAreWhatTheySay | tools/link_gap_report.py:307-334 | snapshots, resets, thresholds and drops reported are those of the usable snapshots, and every threshold reported is pooled |
| NodeCoverage.CountedExactlyUnlessResumed | tools/link_gap_report.py:365-380 | a count that starts again after a gap is never too low, and right if and only if it is never taken up again after one |
| NodeCoverage.CrcTimeExactUnlessResumed | tools/link_gap_report.py:365-380 | so is the time the checksum counter is taken to have covered |
| NodeCoverage.CutShortExactUnlessResumed | tools/link_gap_report.py:312 | so are the intervals cut short, a missing reading being read as 0 |
| NodeCoverage.OneGapCountsTwice | tools/link_gap_report.py:312-380 | three snapshots of which the second lacks both, and both are counted twice |
| NodePool.Pool | tools/link_gap_report.py:395-414 | sorted by time, each node gets the totals of its own records alone; the nodes that never report are listed apart, once each |
| NodePool.LogOrderIsForgotten | tools/link_gap_report.py:407 | where times tell the records apart, the order of the log does not matter |
| NodePool.PoolNeverTooMuch | tools/link_gap_report.py:395-414 | in a log of many nodes no node's count exceeds what it truly counted |

## Left out

- CRC values and the sixteen-bit bytes around them are bit vectors; byte values elsewhere are numbers below 256. The 256-entry table is written as sixteen functions of sixteen entries.
- CaptureTimes.TimedFrames: begins with the records of a capture; reading the two file formats is not part of this model.
- FrameBuilder.BuildGeniPacket: the read and info builders, `build_class10_read` and `build_command_info`, lay out bytes the same way and are left out.
- FrameParser.ParseFrame: does not model log lines; `is_telemetry_frame` and `validate_frame_integrity` test fields of its result and are left out.
- DstProbe.ProbeHostDstRule: the timezone is any function from UTC seconds to an offset; `ESPTime` itself is not part of this model.
- DstAgreementProof.ProbeAgreesExactlyWhenSeenApart: a zone follows a rule over the UTC year that is probed, with one standard offset; the years are the ones the code probes, 1970 to 2100.
- ScheduleCodec.ParseUploadPayload: error texts are kept as the code's reasons without the values formatted into them.
- UploadPrinter.BuildUpload: Python's `int()`, with its blanks, signs and underscores, is a parameter, any function from text to an integer or none; the values formatted into messages are left out.
- ConnectionManager.BLEConnectionManager.HandleGattcEvent: callbacks do not call back into the manager, except that the component may suspend the link from its connection callback; the scheduler and the other callbacks are always set; registration and descriptor-write confirmations, connection parameters, logging and the pairing sensor have no effect on the state and are left out.
- ConnectionRuns.HoldsAreHonest: what the component may say is what it does say: reasons that name something, at the ranks DATA and READY (components/alpha_hwr/alpha_hwr.cpp:760, 841 and 872). While no link is open a held stall may outlast the detector's count, so that part is stated for open links.
- AutoConnect.OffMeansHeld: connects start only while auto_connect is on, and disconnects end a link or an attempt; a connect started by hand is not part of this model. The client is always attached.
- AutoConnect.AlphaHwrComponent.SetSuspended: does not model the gap sampler, the link-status stamps or the published status.
- ControlMode.ControlService.HandleSyncReply: setpoints are the 32-bit words the pump sends; unit conversions and NaN are not modelled. The reads that follow a successful sync are one effect, and the retry scheduler is always set.
- ControlMode.ControlService.InvalidateCache: the cached configuration, setpoint ranges and limiters that the source resets beside the mode are not part of this model.
- ControlMode.PendingKeepsMode: fields written by `WriteOperationService`, a friend class, are written only through `note_mode_commanded` here.
- NodeTotals.NodeTotals.AddRecord: numbers are reals. That a pooled total is exact is stated for counters that keep their place when a record leaves them out; for the other two, see NodeCoverage.
- NodePool.Pool: keeps each node's totals as a value.
- The transport, the session, the watchdogs' timing, telemetry decoding, the limiter, the event log, history reads, device information, the YAML schema and the Home Assistant services are not modelled; they would add easier copies of the patterns here or depend on sources outside the modelled ones.
