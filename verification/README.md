# Verified model of the Elecraft Genius Bridge control logic

The bridge lets Flex radio software drive an Elecraft KAT500 tuner and a KPA500 amplifier as
if they were a TGXL and a PGXL. This project models the logic that decides what is sent to
the two devices, what is believed of what comes back, and what is told to network clients. It
proves properties of whole runs of that logic. `dafny verify dfyconfig.toml` checks everything.

Serial ports, sockets, the clock and the other tasks of the process are arbitrary: a read may
return any line, any read or write may fail, any timeout may fire, and whatever another task
writes may have changed whenever the shared lock is taken. Each lock scope is one step. Ghost
traces record what was written and read.

| File | Component |
|---|---|
| `Sequences.dfy`, `Text.dfy`, `Protocol.dfy` | sequences in parts; Rust's trimming and integer parsing; the newline-delimited client protocol |
| `Serial.dfy`, `SafetyGate.dfy` | a serial port with an arbitrary peer, request/answer and confirmed exchanges; the safety gate |
| `KatLines.dfy`, `KatPoll.dfy`, `KatWires.dfy`, `KatFollow.dfy`, `TuneLifecycle.dfy`, `KatBatch.dfy`, `Kat500.dfy` | the tuner's language, whole polls of it, the wires it may be sent, frequency follow, the tune lifecycle and its record, batches of requests, the tuner driver |
| `KpaLines.dfy`, `KpaHistory.dfy`, `KpaWires.dfy`, `KpaFollow.dfy`, `KpaControl.dfy`, `Kpa500.dfy` | the amplifier's language and telemetry fold, the history of its state, the wires it may be sent, band follow, operate and standby requests, the amplifier driver |
| `ControlPolicy.dfy` | from the configuration to both gates, and on to the wires |
| `TransitionLog.dfy`, `Watchdog.dfy` | the window of amplifier state changes; the advertisement watchdog |
| `PgxlSession.dfy`, `PgxlServer.dfy`, `PgxlTotals.dfy`, `Transcript.dfy` | one client session, all interleavings of many and what their counters count, the rotating transcript |
| `Calendar.dfy`, `RunName.dfy`, `ConfigHash.dfy` | day numbers to dates, run names, the configuration hash |

## What the proofs show about the code

- Everything a driver run transmits is in a fixed set given by its gate, and by composition in
  a set given by the configuration alone. The gates are per safety class, so a control that is
  not enabled can pass when another one opens the device; `GateOpensBeyondPolicy` says exactly when.
- Standby is verified by every reply to `^OS;` except `^OS1;`, the echo of the query included
  (`VerifiesExactly`, `EchoVerifiesStandby`). Operate is verified by `^OS1;` alone.
- A verified control changes the operating state without an entry in the transition log; the
  log holds exactly what polls record (`KpaHistory.Accounts`, `SendAckless`).
- A record in the transition log is a real change unless it reports standby of an amplifier
  that is in standby with its operate flag set (`RecordedIffChanged`). Only the end of a strict
  startup of the PGXL server leaves it so. Without strict startups there is no empty record;
  with them there are no more than startups have ended (`RunSerialLoop`, `EmptyRecordExists`).
- The transmitting states are never entered from serial telemetry, so the look for a
  transmitting amplifier in the band follow never fires in a serial run.
- With the tuning flag clear, the first answer to the TP query after a tune ends the polling
  unless it is `TP1;`, an echo of the query included. Once the flag is set, only `TP0;` or the
  timeout ends it. Only a report from the tuner sets that flag (`AwaitTunerIdle`,
  `PollingEndsExactly`).
- While a fault stands, every repeated poll records two state changes; without a fault it
  records none (`RepeatedPollsWriteDown`).
- A followed frequency or band is recorded although the device never confirmed it, and is then
  not sent again (`FollowConverges` in both drivers). No two consecutive completed follows carry
  the same wire; one follow may transmit its wire twice, and a failed one may be sent again.
- Each request taken is transmitted exactly when its gate lets it, unless its batch was dropped
  before. A tune that is suppressed or not answered drops the antenna and bypass requests taken
  with it, and an unanswered antenna command drops the bypass request (`CarriedInFullExactly`,
  `RequestsAreDropped`). Operate and standby have no such condition: the commands on a run's
  trace are those of the requests found that the gate lets (`KpaControl.RunCarries`).
- A TGXL client can set the tuner's operate flag at any time, and, when its server plays out a
  startup or a presence check, its tuning flag too. The results that need the tuning flag to be
  the driver's own are stated under `!settings.tgxlPlays`; all others hold in both cases.
- The tuner's poll applies each answer before the older lines. What it leaves differs from the
  arrival-order fold in bypass at most, and exactly when the last exchange that mentions bypass
  has an answer that contradicts its last older line (`PollAgainstArrival`).
- Watchdog publications are at least three seconds apart: a look a second, two seconds of hold.
- The PGXL counters are counts of what came in: at every step of every interleaving the server's
  count, with what is queued and the responses lost in a failed write, is the number of greetings,
  frames, unknown commands or malformed lines read so far (`RunCounts`). A reply is counted for its
  session before it is written and for the server after, so a failed write parts the two.
- PGXL and TGXL sessions take ids from one counter in a different order, so ids can coincide
  across the two lists; within the PGXL list they differ unless a client is accepted while a live
  session holds the last 64-bit id (`EveryRunIsGood`).

## Model

| member | source | states |
|---|---|---|
| Text.TrimSplits | crates/bridge-core/src/protocol.rs:24 | trimming removes exactly a run of white space from each end, and leaves none there |
| Text.SplitOnceParts | crates/bridge-core/src/protocol.rs:31-33 | splitting finds the first separator and loses nothing around it |
| Text.Decimal | crates/bridge-core/src/protocol.rs:47-49 | printed numbers are non-empty digit strings whose value is the number |
| Text.ParseDecimal | crates/bridge-core/src/protocol.rs:34-36 | a printed number within the type's range parses back to itself |
| Text.ParsesExactly | crates/bridge-core/src/protocol.rs:34-36 | a text parses to a number if and only if it is digits of that value, with a plus sign or without, and the type holds it |
| Protocol.AcceptsExactlyFrames | crates/bridge-core/src/protocol.rs:23-45 | the parser accepts a line with a result if and only if the line is a frame of that result by an independent grammar |
| Protocol.PrintThenParse | crates/bridge-core/src/protocol.rs:23-45 | every 32-bit number and trimmed non-empty command survives printing and parsing, bars in the command and white space around the frame included |
| Protocol.AcceptedLineReprints | crates/bridge-core/src/protocol.rs:23-45 | every accepted line re-prints to a line that parses to the same command |
| Protocol.RefusalsMean | crates/bridge-core/src/protocol.rs:23-45 | which error a refused line gets: blank exactly for white space alone, then another first letter, no bar, no 32-bit number before the first bar, nothing after it |
| Protocol.ResponseReadsBack | crates/bridge-core/src/protocol.rs:47-49 | a client's reader (the letter R, a number up to the first bar, a code up to the second, the rest) reads every response back, bars in the body included |
| Protocol.ResponseLineInjective | crates/bridge-core/src/protocol.rs:47-49 | a response line determines its number, code and body, and a client that reads number, code and body in that order gets them back |
| Calendar.CivilFromDaysCounts | crates/egb/src/main.rs:6890-6902 | for every integer day, negative ones included, the result is a valid Gregorian date, and counting days to that date gives the day back |
| Calendar.CivilFromDayNumber | crates/egb/src/main.rs:6890-6902 | the conversion of the day number of any valid date is that date, so both maps are bijections |
| Calendar.CivilFromDaysSucceeds | crates/egb/src/main.rs:6890-6902 | the next day number gives the calendar successor, by month lengths and the leap rule |
| Calendar.EpochDay | crates/egb/src/main.rs:6890-6902 | day 0 is 1970-01-01 |
| Calendar.DayNumberMonotone | crates/egb/src/main.rs:6890-6902 | of two valid dates one is earlier if and only if its day number is smaller |
| RunName.TimestampsSort | crates/egb/src/main.rs:6876-6888 | later seconds give lexicographically later names through year 9999, so run names are distinct and sort by time |
| RunName.TimestampReads | crates/egb/src/main.rs:6876-6888 | through year 9999 a run name is eight digits of the date whose day number is the clock's, a dash, and six digits of hours, minutes and seconds |
| RunName.FiveDigitYearSortsFirst | crates/egb/src/main.rs:6876-6888 | the bound is sharp: the first second of year 10000 sorts before the last of 9999 |
| ConfigHash.StableHashHex | crates/egb/src/main.rs:1557-1564 | the loop computes the sixteen-digit text of the FNV-1a fold |
| ConfigHash.PublishedValues | crates/egb/src/main.rs:1557-1564 | the hashes of the empty text and of the letter a are the published FNV-1a values |
| ConfigHash.AbsorbBijective | crates/egb/src/main.rs:1560-1561 | each step is a bijection on 64-bit states for a fixed byte, with an explicit inverse |
| ConfigHash.CommonSuffix | crates/egb/src/main.rs:1557-1564 | a common suffix neither merges nor splits: hashes agree with it exactly when they agree without it |
| ConfigHash.OneByteChangeShows | crates/egb/src/main.rs:1557-1564 | texts of equal length that differ in exactly one byte have different hash texts |
| ConfigHash.HexInjective | crates/egb/src/main.rs:1563 | hash texts are equal only for equal hashes |
| Serial.SerialPort.ReadLine | crates/elecraft-kat500/src/lib.rs:1860-1874 | any line may come, trimmed, or the port fails |
| Serial.Exchange | crates/elecraft-kat500/src/lib.rs:1791-1858 | sends its wire once; success returns the first accepted line and, in arrival order, exactly the lines before it, none of them accepted; failure means no accepted line was read |
| Serial.SendOnceExact | crates/elecraft-kat500/src/lib.rs:1643-1735 | one transmission; matched if and only if some line read echoes the wanted value, which ends it, and otherwise the deadline does; the stale count is the number of wrong echoes; the last line, what it echoes and the last line set aside are reported |
| Serial.DrainStaleInput | crates/elecraft-kat500/src/lib.rs:1737-1748 | discards lines until twenty are gone, a window passes without one, or, after a line, the time is up; counts them and sends nothing |
| Serial.SendConfirmed | crates/elecraft-kat500/src/lib.rs:1576-1641 | the setting is transmitted again, once, if and only if no line read for the first transmission echoes the wanted value; no match means two transmissions and one retry; without an I/O error a match is reported if and only if some line of an attempt echoes the wanted value, with a stale count of drained lines plus wrong echoes plus failed attempts, and the last lines of the last transmission |
| KatLines.FrequencyWireReadsBack | crates/elecraft-kat500/src/lib.rs:1928-1952 | every frequency in range has a wire that reads back as its kHz, the nearest one, halves rounded up |
| KatLines.WiresShareKhz | crates/elecraft-kat500/src/lib.rs:1928-1938 | two frequencies in range share a wire exactly when they round to the same kHz |
| KatLines.FrequenciesWithWires | crates/elecraft-kat500/src/lib.rs:1928-1938 | a frequency has a wire if and only if it is known and lies from 1.8 to 54 MHz |
| KatLines.AnswersMean | crates/elecraft-kat500/src/lib.rs:1876-1901 | for every command with an answer, exactly which lines answer it |
| KatLines.BandReportsAreNoted | crates/elecraft-kat500/src/lib.rs:1903-1911 | of the unsolicited lines, those set aside while waiting for an echo are exactly the BN reports |
| KatLines.ApplyFields | crates/elecraft-kat500/src/lib.rs:1373-1498 | what every reading does to every field of the tuner |
| KatLines.TextReportsRead | crates/elecraft-kat500/src/lib.rs:1373-1498 | for every body of a version, serial number, frequency or band report, which reading it is, and which bodies say nothing |
| KatLines.OnlyTuningLinesTune | crates/elecraft-kat500/src/lib.rs:1431-1447 | a line that is not a TP report leaves the tuning flag alone |
| KatLines.AntennaReportReads | crates/elecraft-kat500/src/lib.rs:1373-1498 | every printed antenna number is taken if and only if it is at most 3 |
| KatLines.FaultReportReads | crates/elecraft-kat500/src/lib.rs:1373-1498 | every printed 16-bit fault code is read as that fault, 0 as none |
| KatLines.ForwardReportReads | crates/elecraft-kat500/src/lib.rs:1373-1498 | every printed forward reading is taken if and only if it is at most 4095 |
| KatLines.ModeAndTuningReportsRead | crates/elecraft-kat500/src/lib.rs:1373-1498 | for every body of an MD or TP line, which reading it is, and that any other body says nothing |
| KatLines.SwitchWiresReadBack | crates/elecraft-kat500/src/lib.rs:1913-1926 | each antenna and bypass command reads as a report of the state it asks for; an unknown antenna's reads as nothing |
| KatLines.ParseLines | crates/elecraft-kat500/src/lib.rs:1341-1343 | lines applied one after another give the fold of the parser |
| KatLines.PollOrderMatters | crates/elecraft-kat500/src/lib.rs:1337-1343 | for one exchange, answer-first application equals arrival order if and only if the answer does not contradict the last older line about bypass |
| KatPoll.PollAgainstArrival | crates/elecraft-kat500/src/lib.rs:1336-1344 | for a whole poll, the state left equals the arrival-order fold of all its lines except perhaps in bypass, and in bypass too if and only if the last exchange that mentions bypass does not overtake |
| KatPoll.OvertakingExists | crates/elecraft-kat500/src/lib.rs:1336-1344 | a poll in which the two orders leave different tuners, and one with the line repeated later in which they do not |
| KatPoll.TuningAnswer | crates/elecraft-kat500/src/lib.rs:1431-1447 | among the answers to the TP query, `TP1;` sets the tuning flag, `TP0;` clears it and every other one keeps it |
| KatPoll.PollingEndsExactly | crates/elecraft-kat500/src/lib.rs:1016-1034 | exactly which last answer ends a polling that went on until then: with the flag clear the first answer unless it is `TP1;`, after that and with the flag set only `TP0;` |
| KatPoll.EchoEndsTunePolling | crates/elecraft-kat500/src/lib.rs:1016-1034 | the echo of the TP query counts as its answer and is one that ends a polling with the flag clear |
| TuneLifecycle.AcceptedTunesAreSpaced | crates/elecraft-kat500/src/lib.rs:469-500 | on a clock that does not run backwards accepted tunes are at least 1500 ms apart |
| TuneLifecycle.TransitionMeans | crates/bridge-core/src/state.rs:296-305 | a transition leads to its state and reason and leaves the dates of success and failure alone; it is counted, and dated in whole milliseconds, exactly when state or reason is new |
| TuneLifecycle.MarksMean | crates/bridge-core/src/state.rs:307-315 | a success is dated and leads to completion, a failure is dated and leads to the failed state |
| KatFollow.FollowConverges | crates/elecraft-kat500/src/lib.rs:715-883 | for a fixed frequency in range, idle tuner, open gate and no I/O error, two follows reach its wire from any context and any answers, and however many follows there are at most one transmits |
| KatFollow.OneFollowSuffices | crates/elecraft-kat500/src/lib.rs:767-784 | one follow reaches the wire exactly when it was reached already or the change is not coalesced |
| Kat500.Kat500Driver.SendCommand | crates/elecraft-kat500/src/lib.rs:1531-1574 | an answer matches the command and every earlier line does not; without an answer no line read matches |
| Kat500.Kat500Driver.SendFrequency | crates/elecraft-kat500/src/lib.rs:1576-1641 | the confirmed exchange for frequencies, its retry and its last band report included, with a bounded quiet wait after a completed one |
| Kat500.Kat500Driver.TgxlConnections | crates/tgxl-emulator/src/lib.rs:309-334 | any number of clients that connect touch a fixed few fields of the tuner |
| Kat500.Kat500Driver.RefreshTuningState | crates/elecraft-kat500/src/lib.rs:885-938 | sends a TP query exactly when the tuner or the lifecycle found under the lock may be tuning |
| Kat500.Kat500Driver.AskTuning | crates/elecraft-kat500/src/lib.rs:897-937 | the tuner follows the answer; a state expires exactly when there is no answer and more than 30000 ms lie between entering the lifecycle's state and now; an answer or an expiry that leaves it idle resets the lifecycle, and an expiry alone dates a failure |
| Kat500.Kat500Driver.SendInRange | crates/elecraft-kat500/src/lib.rs:1576-1641 | a frequency is on the trace once or twice and nothing else is; twice exactly when a retry is reported, and always when it was not confirmed |
| Kat500.Kat500Driver.TransmitFrequency | crates/elecraft-kat500/src/lib.rs:563-619 | the follow record grows by exactly the completed send on the trace, confirmed or not, whose transmissions are the reported retries and one; a failed one changes no follow field |
| Kat500.Kat500Driver.DecideFollow | crates/elecraft-kat500/src/lib.rs:722-816 | with the frequency and tuning flag found under the lock, transmits exactly when the frequency is in range, new, not coalesced, nothing tunes and the gate is open |
| Kat500.Kat500Driver.ProcessFrequencyFollow | crates/elecraft-kat500/src/lib.rs:715-883 | one follow is one step of the follow function that FollowConverges is about, for a frequency found under the lock; the frequencies on its trace are its one send, transmitted twice exactly when a retry is reported, and the follow record grows by it when completed |
| Kat500.Kat500Driver.PollTune | crates/elecraft-kat500/src/lib.rs:1016-1034 | one TP query; the tuner follows its answer, and an answer that leaves it idle resets the lifecycle |
| Kat500.Kat500Driver.AwaitTunerIdle | crates/elecraft-kat500/src/lib.rs:1008-1062 | between 1 and 31 TP polls, ended by an answer or after 15 seconds, with the tuner idle, the lifecycle idle, and a failure dated exactly by the timeout; unless TGXL clients write the tuning flag, it ends at the first answer that does not leave it going |
| Kat500.Kat500Driver.PollTuneUntilIdle | crates/elecraft-kat500/src/lib.rs:1008-1070 | the same, then one SWR query whose answer cannot set the tuning flag again |
| Kat500.Kat500Driver.NoteDecision | crates/elecraft-kat500/src/lib.rs:947-975 | the dry-run counter moves if and only if the gate refuses because of dry run, the RF counter if and only if it refuses for want of allow_rf_risk; a refusal for want of allow_control is not counted |
| Kat500.Kat500Driver.ApplyDesiredCommand | crates/elecraft-kat500/src/lib.rs:940-1006 | a command is transmitted once exactly when the gate lets it, fails exactly when the gate refuses it or its exchange on the trace has no answer, and an answered tune is polled until idle |
| Kat500.Kat500Driver.AcceptTune | crates/elecraft-kat500/src/lib.rs:466-511 | a request is suppressed exactly inside the cooldown of the last accepted one; the lifecycle is then in Cooldown, and otherwise in Tuning; the frequency to send is the one found under the lock |
| Kat500.Kat500Driver.TakeDesired | crates/elecraft-kat500/src/lib.rs:455-463 | what is pending under the lock is taken, all of it, and nothing is left |
| Kat500.Kat500Driver.FinishTune | crates/elecraft-kat500/src/lib.rs:630-660 | an accepted request adds one to exactly one of executed and failed; an executed one leaves the lifecycle idle with a new date of success, a failed one failed with a new date of failure, and the other date stays |
| Kat500.Kat500Driver.PrepareTune | crates/elecraft-kat500/src/lib.rs:547-629 | before a tune the frequency is sent once or twice if it is in range, not followed yet and tuning is allowed, and otherwise nothing is sent; the follow record grows by the completed send |
| Kat500.Kat500Driver.ExecuteTune | crates/elecraft-kat500/src/lib.rs:547-631 | the frequency if due, then `T;` exactly when the gate lets it, applied exactly when answered |
| Kat500.Kat500Driver.ProcessAutotune | crates/elecraft-kat500/src/lib.rs:465-660 | a request is suppressed exactly inside the cooldown; otherwise its `T;` is on the trace exactly when the gate lets it, in Tuning unless a client has asked again, and it is executed exactly when that exchange has an answer; the lifecycle ends idle, failed or in Cooldown by the request's fate, with the date that belongs to it; the frequency found under the lock if due, `T;`, at most 31 TP polls and an SWR query come in that order |
| Kat500.Kat500Driver.ApplyIfAsked | crates/elecraft-kat500/src/lib.rs:661-684 | a switch asked for is transmitted exactly when its gate is open, and succeeds exactly when answered |
| Kat500.Kat500Driver.ProcessSwitches | crates/elecraft-kat500/src/lib.rs:661-684 | antenna exactly when asked for with an open gate, bypass exactly when in addition the antenna, if asked for, was answered; the wires are AN1; to AN3; for the antenna asked for, BYPB; for bypass on and BYPN; for off |
| Kat500.Kat500Driver.ProcessDesiredControl | crates/elecraft-kat500/src/lib.rs:450-713 | the batch taken is what was pending under the lock; each of its requests is transmitted, with the wire that means it, exactly when the gate lets it and the batch was not dropped before, by explicit exchanges on the trace; its tune has one record, and the lifecycle ends as its fate says unless a client has asked again |
| Kat500.Kat500Driver.PollStatus | crates/elecraft-kat500/src/lib.rs:1288-1348 | the seven queries AN, BYP, MD, TP, FLT, VSWR and VFWD are sent once each in this order, each outcome is what its exchange read, and from the tuner found under the lock the state is their answer-first fold, equal to the arrival-order fold except in bypass when the last mention overtakes |
| Kat500.Kat500Driver.DiscoverCapabilities | crates/elecraft-kat500/src/lib.rs:1253-1286 | asks for the firmware version and the serial number, once each, and reads exactly their answers into the tuner |
| Kat500.Kat500Driver.Wake | crates/elecraft-kat500/src/lib.rs:1772-1789 | null commands, four at most and four without success; the tuner is awake if and only if some line read answers one |
| Kat500.Kat500Driver.OpenWithDiscovery | crates/elecraft-kat500/src/lib.rs:1189-1251 | discovery transmits null commands alone, and connects if and only if some line read answers one; without success every rate was tried, in order |
| Kat500.BaudsAreTriedOnce | crates/elecraft-kat500/src/lib.rs:1193-1198 | the configured rate is tried first, and it and each known rate exactly once |
| Kat500.Kat500Driver.Turn | crates/elecraft-kat500/src/lib.rs:279-315 | the trace of a turn is a follow without controls, the trace of one carried-out batch, and a whole poll, in this order; frequencies, tune record and follow record agree with it |
| Kat500.Kat500Driver.RunPass | crates/elecraft-kat500/src/lib.rs:259-338 | a pass of the loop is a turn exactly when the port is open; otherwise it transmits null commands and, exactly when one is answered, the two questions about capabilities, and then the port is open |
| Kat500.Kat500Driver.RunSerialLoop | crates/elecraft-kat500/src/lib.rs:259-338 | the trace of a run of any length is that of its passes, and a pass is a turn exactly when the one before it left the port open; only wires permitted by the gate are on it; the tune, antenna and bypass commands on it are exactly those of the requests taken that the gate lets and whose batch was not dropped before; each tune request taken has one record, suppressed exactly inside the cooldown, and the three counters add the records up; the frequencies on the trace are a list of sends whose completed ones are the follow record, no two consecutive the same |
| KatBatch.BatchCarries | crates/elecraft-kat500/src/lib.rs:450-684 | the control wires on the trace of a batch are those it transmits: T;, AN1; to AN3;, BYPB; for bypass on and BYPN; for off, in this order |
| KatBatch.CarriedInFullExactly | crates/elecraft-kat500/src/lib.rs:450-684 | exactly when a batch is transmitted in full: its tune not suppressed and let by the gate; for its switches the gate open and the tune, if any, answered; for bypass also the antenna, if asked for, answered |
| KatBatch.RequestsAreDropped | crates/elecraft-kat500/src/lib.rs:520-529 | under a fully open gate, batches of which requests are dropped: after a suppressed tune, after an unanswered tune, after an unanswered antenna command |
| KatBatch.RunCarries | crates/elecraft-kat500/src/lib.rs:259-338 | the control wires on the trace of any passes are exactly those their batches transmit |
| KatBatch.TransmittedTunesAreSpaced | crates/elecraft-kat500/src/lib.rs:469-500 | on a clock that does not run backwards, two `T;` on the trace of a run belong to two accepted requests at least 1500 ms apart |
| KatBatch.EveryTuneIsRecorded | crates/elecraft-kat500/src/lib.rs:465-660 | a run has exactly one record for every tune request taken |
| KpaLines.BandWireReadsBack | crates/elecraft-kpa500/src/lib.rs:1495-1511 | every known band has a wire that reads back as its number |
| KpaLines.BandWiresDiffer | crates/elecraft-kpa500/src/lib.rs:1495-1656 | wires and echoed numbers agree only for the same band |
| KpaLines.AnswersMean | crates/elecraft-kpa500/src/lib.rs:1457-1474 | exactly which lines answer each query, and that nothing answers a control |
| KpaLines.TextReportsRead | crates/elecraft-kpa500/src/lib.rs:1035-1113 | for every body of a version, serial number or speaker report, which reading it is |
| KpaLines.FaultReportReads | crates/elecraft-kpa500/src/lib.rs:1300-1317 | every printed 16-bit fault code is read as that code |
| KpaLines.PowerReportReads | crates/elecraft-kpa500/src/lib.rs:1242-1271 | printed power and SWR are each taken if and only if possible, an SWR of 0 as 1.0 |
| KpaLines.SupplyReportReads | crates/elecraft-kpa500/src/lib.rs:1280-1298 | printed volts and amperes are each taken if and only if they are at most 99.9 |
| KpaLines.TemperatureReportReads | crates/elecraft-kpa500/src/lib.rs:1273-1278 | every printed 16-bit temperature, negative ones included, is taken if and only if it lies from -40 to 150 |
| KpaLines.FoldKeepsLatest | crates/elecraft-kpa500/src/lib.rs:1035-1113 | folding the parser over lines in arrival order leaves each field at the last value reported for it, the state by the last line with a say in it |
| KpaLines.FaultReportSettles | crates/elecraft-kpa500/src/lib.rs:1300-1317 | after a valid fault report the state is Fault if and only if a fault is stored, and otherwise follows the operate flag |
| KpaLines.RecordedIffChanged | crates/elecraft-kpa500/src/lib.rs:1115-1165 | every line keeps the amplifier plausible, and consistent if it was; it is recorded if and only if it changes the operating state or reports standby to an amplifier in standby with its operate flag set |
| KpaLines.EmptyRecordsExactly | crates/elecraft-kpa500/src/lib.rs:1124-1165 | among the records of a fold exactly one is of no change if the amplifier was left in standby with its flag set and the first line with a say reports standby, and otherwise none is |
| KpaLines.ChangePointsLink | crates/elecraft-kpa500/src/lib.rs:1157-1168 | the records of a fold form an unbroken chain from its first state to its last |
| KpaLines.RepeatedPollsWriteDown | crates/elecraft-kpa500/src/lib.rs:949-963 | after one poll of any amplifier, n more polls that report the same record exactly 2n changes if there is a fault and none otherwise, whatever other telemetry they carry |
| KpaLines.ControlWiresReadBack | crates/elecraft-kpa500/src/lib.rs:73-88 | the operate and standby commands read as reports of the states they ask for |
| KpaLines.VerifiesExactly | crates/elecraft-kpa500/src/lib.rs:737-743 | operate is verified if and only if the reply is `^OS1;`, standby if and only if it is not |
| KpaLines.EchoVerifiesStandby | crates/elecraft-kpa500/src/lib.rs:737-743 | an echo of the query verifies standby and changes nothing |
| KpaFollow.FollowConverges | crates/elecraft-kpa500/src/lib.rs:573-716 | for a fixed known band, no tune, open gate and no I/O error, one follow records the band and no later one transmits, confirmed or not |
| KpaFollow.ShutGateNeverFollows | crates/elecraft-kpa500/src/lib.rs:615-634 | with a shut gate no number of follows sends or records a band |
| Kpa500.Kpa500Driver.DecideFollow | crates/elecraft-kpa500/src/lib.rs:581-643 | with the band and tuning flag found under the lock, transmits exactly when the band is known and new, nothing transmits or tunes and the gate is open |
| KpaHistory.PolledLineKeeps | crates/elecraft-kpa500/src/lib.rs:949-962 | a polled line keeps the account of the history, the log gaining its record exactly when state or flag differ |
| KpaHistory.ControlledLineKeeps | crates/elecraft-kpa500/src/lib.rs:745-747 | a reply to a verified control keeps it without the log |
| KpaHistory.PowerUpKeeps | crates/pgxl-emulator/src/lib.rs:505-511 | the beginning of a strict startup keeps it |
| KpaHistory.StartUpKeeps | crates/pgxl-emulator/src/lib.rs:515-522 | the end of a strict startup keeps it, at the price of one possible empty record |
| KpaHistory.LogIsReal | crates/elecraft-kpa500/src/lib.rs:1157-1168 | empty records are no more than ended startups, none without a startup; the amplifier is never transmitting |
| KpaHistory.EmptyRecordExists | crates/elecraft-kpa500/src/lib.rs:1124-1165 | an amplifier in operate, started up strictly, from which the next standby report makes an empty record |
| Kpa500.Kpa500Driver.StrictStartups | crates/pgxl-emulator/src/lib.rs:500-535 | any number of startups beginning or ending disturbs state and fault only, and keeps the account |
| Kpa500.Kpa500Driver.SendBand | crates/elecraft-kpa500/src/lib.rs:1513-1557 | a band is on the trace once or twice and nothing else is; twice exactly when a retry is reported, and always when it was not confirmed; the report is as SendConfirmed states it |
| Kpa500.Kpa500Driver.TransmitBand | crates/elecraft-kpa500/src/lib.rs:642-714 | the follow record grows by exactly the completed send on the trace, confirmed or not, whose transmissions are the reported retries and one; a failed one is only counted |
| Kpa500.Kpa500Driver.ProcessBandFollow | crates/elecraft-kpa500/src/lib.rs:573-716 | one follow is one step of the follow function, for the band found under the lock; the bands on its trace are its one send, transmitted twice exactly when a retry is reported, and the follow record grows by it when completed |
| Kpa500.Kpa500Driver.SendAckless | crates/elecraft-kpa500/src/lib.rs:718-772 | a refused control leaves no trace; an allowed one is written, fails only with that write, and its outcome is that of the answer to the query on the trace, a timeout exactly without one; only a verified answer updates the amplifier, outside the transition log |
| Kpa500.Kpa500Driver.CarryOutControl | crates/elecraft-kpa500/src/lib.rs:512-571 | the same, refused exactly when there is no trace; a dry run is counted |
| Kpa500.Kpa500Driver.TakeDesired | crates/elecraft-kpa500/src/lib.rs:506-509 | the request pending under the lock is taken and cleared |
| Kpa500.Kpa500Driver.ProcessDesiredControl | crates/elecraft-kpa500/src/lib.rs:501-571 | the request taken is the one pending under the lock, and its control is transmitted exactly when the gate lets it, whatever becomes of it |
| KpaControl.ServedWires | crates/elecraft-kpa500/src/lib.rs:501-571 | the control wires of a request taken are ^OS1; for operate and ^OS0; for standby, exactly when the gate lets it |
| KpaControl.RunCarries | crates/elecraft-kpa500/src/lib.rs:239-346 | the control wires on the trace of any passes are exactly those of the requests found that the gate lets, in order |
| KpaControl.GateDropsRequests | crates/elecraft-kpa500/src/lib.rs:806-849 | gates that drop one kind of request and let the other, and a dry run that drops both |
| Kpa500.Kpa500Driver.ApplyLine | crates/elecraft-kpa500/src/lib.rs:949-962 | a line is told to the transition log exactly when it changes the operating state or the operate flag |
| Kpa500.Kpa500Driver.PollStatus | crates/elecraft-kpa500/src/lib.rs:886-999 | the five queries ^OS, ^WS, ^TM, ^VI and ^FL are sent once each in this order; the telemetry is the fold over every line read for an answered command in arrival order, from the amplifier found under the lock; the log is told of exactly the points where state or flag change; a valid fault reply settles the state |
| Kpa500.Kpa500Driver.DiscoverCapabilities | crates/elecraft-kpa500/src/lib.rs:851-884 | two read-only queries, whose answers alone are read into the amplifier and cannot change the operating state |
| Kpa500.Kpa500Driver.Turn | crates/elecraft-kpa500/src/lib.rs:280-316 | the trace of a turn is a follow without controls, that of the request found, and a whole poll, in this order; bands and follow record agree with it |
| Kpa500.Kpa500Driver.RunSerialLoop | crates/elecraft-kpa500/src/lib.rs:239-346 | in a run of any length, strict startups included, the trace is that of the passes, with permitted wires only, and a pass is a turn exactly when the one before it left the port open; the operate and standby commands on it are exactly those of the requests found that the gate lets; the bands on the trace are a list of sends whose completed ones are the follow record, no two consecutive the same; the amplifier is never taken to transmit; its state has one unbroken history of which the log holds the polled part, with no empty record unless a strict startup ended |
| ControlPolicy.GatesAgree | crates/elecraft-kat500/src/lib.rs:1138-1187 | the refusing and the asking form of the gate agree |
| ControlPolicy.ValidatesExactly | crates/config/src/lib.rs:385-400 | an operational section is accepted if and only if real controls are confirmed and every dangerous control switched on takes effect; a missing confirmation is reported first |
| ControlPolicy.ValidatedControlsTakeEffect | crates/config/src/lib.rs:385-400 | in a validated configuration the override is active exactly when real controls are enabled, and every dangerous control switched on takes effect |
| ControlPolicy.EnabledControlsPass | crates/egb/src/main.rs:1475-1523 | every control the policy reports as enabled, clear-fault included, passes its driver's gate |
| ControlPolicy.GateOpensBeyondPolicy | crates/egb/src/main.rs:1475-1523 | exactly when a gate opens for a control that is not enabled, class by class |
| ControlPolicy.SwitchesShareAGate | crates/egb/src/main.rs:1479-1523 | bypass or antenna enabled opens the gate for both; exactly when bypass is enabled without antenna, and antenna without bypass |
| ControlPolicy.PolicyPermitsExactly | crates/egb/src/main.rs:1475-1523 | what a driver may transmit under the effective policy is exactly a set stated from the configuration |
| ControlPolicy.EnabledRequestsGoOut | crates/egb/src/main.rs:1475-1523 | a request for a tuner control that the policy reports as enabled is transmitted unless it is suppressed or its batch was dropped before |
| ControlPolicy.EnabledControlsAllowed | crates/egb/src/main.rs:1475-1523 | a request for an enabled operate or standby control is transmitted |
| ControlPolicy.RunTuner | crates/egb/src/main.rs:1183-1190 | a whole tuner run under a configuration transmits only the configured set, only read-only wires unless dry run is off or the override is confirmed with some tuner control, and the enabled requests that were not dropped |
| ControlPolicy.RunAmplifier | crates/egb/src/main.rs:1183-1190 | the same for the amplifier, with exactly the requests its effective gate lets; no run clears a fault |
| TransitionLog.EntriesGrow | crates/bridge-core/src/state.rs:745-853 | one more event adds an entry or touches the existing ones, in agreement with the first-observation specification over the whole history |
| TransitionLog.EntryMeaning | crates/bridge-core/src/state.rs:734-853 | each entry of the window belongs to the change its id counts; every first observation, with its state or line, and every first match is the first qualifying event since that change; pass flags are present exactly with a match and mean at most 2000 ms; the result is matched exactly with a Flex match, and otherwise names the state that was echoed and the one that was expected |
| TransitionLog.FirstIsEarliest | crates/bridge-core/src/state.rs:766-792 | the first qualifying event qualifies and none before it does |
| TransitionLog.WindowIsConsecutive | crates/bridge-core/src/state.rs:745-764 | below the largest count the window is the last min(count, 64) changes with consecutive ids ending at the count |
| TransitionLog.IdsCount | crates/bridge-core/src/state.rs:751-757 | ids number the changes and stop at the largest 64-bit value |
| TransitionLog.Log.RecordTransition | crates/bridge-core/src/state.rs:745-764 | keeps the log equal to its specification over the history and returns the new last entry |
| TransitionLog.Log.RecordPgxlStatus | crates/bridge-core/src/state.rs:766-792 | the same for a PGXL status; returns exactly the entries it changed |
| TransitionLog.Log.RecordReannounce | crates/bridge-core/src/state.rs:794-813 | the same for a reannouncement |
| TransitionLog.Log.RecordFlexStatus | crates/bridge-core/src/state.rs:815-853 | the same for a Flex status |
| PgxlSession.ReplyNamesItsFrame | crates/pgxl-emulator/src/lib.rs:228-268 | a reply line determines the frame number and code it carries, and reads back as them |
| PgxlSession.ReplyReadsBack | crates/pgxl-emulator/src/lib.rs:228-268 | a client reads every reply as the frame's number, the command's code and the body without the white space at its end |
| PgxlSession.CodesMean | crates/pgxl-emulator/src/lib.rs:346-498 | exactly which commands are answered, which are refused as unsupported and which are unknown |
| PgxlSession.BodiesMean | crates/pgxl-emulator/src/lib.rs:346-498 | the body of every reply to a command with parameters, to save, or to an unknown one |
| PgxlSession.PlainBodiesMean | crates/pgxl-emulator/src/lib.rs:353-381 | the body of the reply to every command without parameters |
| PgxlSession.OrderedHasNoDisorders | crates/pgxl-emulator/src/lib.rs:209-225 | no sequence is counted as unexpected if and only if the frame numbers strictly increase |
| PgxlSession.SessionStats.TakeFrame | crates/pgxl-emulator/src/lib.rs:205-266 | one frame produces its own reply, which reads back as the frame's number, its code and its body, and every counter stays a function of the lines handled |
| PgxlSession.SessionStats.SkipLine | crates/pgxl-emulator/src/lib.rs:186-189 | a blank line or malformed frame produces no reply; only the malformed one is counted |
| PgxlSession.ServeLine | crates/pgxl-emulator/src/lib.rs:185-286 | one line adds its reply, if any, and stops the session only with a failed write |
| PgxlSession.ServeClient | crates/pgxl-emulator/src/lib.rs:156-290 | a session ends early exactly with a failed read or write; the output is the greeting and one reply per well-formed frame heard, in order, less the one whose write failed; each reply reads back as the number, code and body of its frame |
| PgxlServer.SharedClients.Accept | crates/pgxl-emulator/src/lib.rs:96-129 | an accept adds one session, counts it and sets the flag; while ids are below the next one the new id is fresh |
| PgxlServer.SharedClients.UpdateSession | crates/pgxl-emulator/src/lib.rs:994-1040 | counts for the first session with the id, and for no other |
| PgxlServer.SharedClients.Disconnect | crates/pgxl-emulator/src/lib.rs:292-299 | a disconnect uncounts a client and keeps the sessions with other ids, in order |
| PgxlServer.EveryRunIsGood | crates/pgxl-emulator/src/lib.rs:90-316 | under every interleaving of any number of connections with failures anywhere, at every step count, flag and session list agree, ids are distinct, and for every counter what sessions recorded is the server's count plus the connections between the two updates plus the replies lost in their write, if and only if no client is accepted with the id of a live session; below the last 64-bit id none is |
| PgxlServer.CollisionBreaks | crates/pgxl-emulator/src/lib.rs:112-119 | accepting a client with the id of a live session breaks the agreement at once |
| PgxlServer.CleanupRemovesOwn | crates/pgxl-emulator/src/lib.rs:292-299 | in a reachable state a disconnect removes exactly its own session |
| PgxlTotals.EveryStepIsAccounted | crates/pgxl-emulator/src/lib.rs:145-290 | in every run, colliding ones included, every write and every count that greetings, frames and malformed lines call for was performed, was lost with a failed write, or is still to be taken |
| PgxlTotals.RunCounts | crates/pgxl-emulator/src/lib.rs:145-290 | what each counter counts, from the lines read alone: the server's count, with what is queued and the responses lost in a failed write, is the number of greetings, frames, unknown commands or malformed lines; so are the counts of all sessions if no client is accepted with the id of a live session, where only failed greetings lose a response |
| PgxlTotals.ResponsesAreWritten | crates/pgxl-emulator/src/lib.rs:172-181 | every greeting and reply was written, failed or is still to be written, and at no time has the server counted a response that was not written |
| PgxlTotals.QuiescentRunBalances | crates/pgxl-emulator/src/lib.rs:180-286 | with every connection waiting for a line, server and sessions have counted everything the lines called for except the responses whose write failed, and the responses counted are those written; with no reply lost, sessions and server have counted the same |
| PgxlServer.ExhaustedIdsCollide | crates/pgxl-emulator/src/lib.rs:112-113 | at the last 64-bit id two clients share it and the agreement is lost |
| PgxlServer.IdsAreSharedAcrossProtocols | crates/tgxl-emulator/src/lib.rs:94-95 | a TGXL client and the next PGXL client get the same id |
| Transcript.TranscriptFile.Rotate | crates/pgxl-emulator/src/lib.rs:905-927 | the next file starts empty and nothing on disk changes |
| Transcript.TranscriptFile.Append | crates/pgxl-emulator/src/lib.rs:889-902 | a row, or the beginning of one, ends the current file; within the bound or alone in its file |
| Transcript.TranscriptFile.WriteLine | crates/pgxl-emulator/src/lib.rs:874-903 | a row goes into the current file exactly when it fits within the limit, and otherwise begins the next one; the files in order always begin the rows offered, equal them until the first I/O failure, and each holds at most the limit or a single row; the transcript is closed exactly when a file operation has failed |
| Watchdog.StateWatchdog.Look | crates/egb/src/main.rs:6337-6386 | keeps the published mismatch equal to the latest justified publication not yet cleared; a look without a mismatch clears it; a count means this look was published |
| Watchdog.StateWatchdog.Publish | crates/egb/src/main.rs:6346-6372 | a pending mismatch that has lasted is published with its justification, after all earlier publications |
| Watchdog.StateWatchdog.Watch | crates/egb/src/main.rs:6337-6386 | the loop keeps that for any looks the clock allows |
| Watchdog.PublicationsAreRare | crates/egb/src/main.rs:6337-6386 | consecutive publications are at least three seconds apart, so the count times three seconds never exceeds the running time |
| Watchdog.ThreeSecondsIsSharp | crates/egb/src/main.rs:6337-6386 | three looks a second apart reach the bound |

## Left out

- The TGXL emulator and the Flex injection task: their effects on shared requests, the frequency and session ids are arbitrary interference or steps.
- The relay, power and SWR values that a TGXL presence check writes for display; its writes to the modelled tuner fields, those of a startup, and those of operate commands are modelled.
- The connection flags that the startups of both servers write; their writes to the modelled fields of tuner and amplifier are modelled.
- Real and mock serial ports, sockets, scheduling, sleeps and reconnect back-off: replaced by arbitrary inputs and failures. The reconnect branch after a poll cannot run, because polls always succeed.
- Bytes of a partial line lost when a read timeout fires: the rest of such a line is a new arbitrary line in the model.
- Telemetry in floating point: power, SWR, volts and amperes are whole numbers or tenths, and the tuner's own SWR reading is not kept.
- The reannouncement requested when telemetry changes without a change of state: its volts threshold depends on floating-point rounding.
- Diagnostic strings, evidence files, capability lists, connection flags, poll statistics and log messages.
- Error texts inside lifecycle reasons: a constant text stands for each, which only affects the count of lifecycle transitions.
- Saturation of stale counts within one confirmed exchange, of per-session counters, and overflow of the PGXL totals at 2^64: these are unbounded numbers in the model.
- Day numbers outside the 64-bit range of the original, where its additions would overflow.
- Manual relay tuning: the driver only reports it, so a request has no effect to model.
- The texts of status and information replies: any text may be reported.
- Operate and standby requests over PGXL only set the shared request that the amplifier driver takes; that request is arbitrary there.
- The PGXL totals for unsupported features and unexpected sequences in the interleaving: no per-session counter stands against them. A single session counts both.
- Latencies, timestamps and last commands kept in session records.
- The other checks of the configuration file (addresses, ports, profiles) do not bear on the gates.
- The public helpers that send commands without the driver loop, and the clear-fault command, which no loop sends.
- Rotation beyond 2^64 files, where the file index would stop, and the copies of the transcript in both drivers.
