# Fiesta firmware: verified models

Dafny models of the small protocols the Fiesta nodes depend on, and proofs of
what they keep. Every clock reading, every outcome of a driver call and every
interleaving is an input, so a statement about a run holds for all failures,
schedules and wraps of a 32-bit counter.

The pattern is the same in every module. A function of the old state gives the
new state of each call, in the branches of the C or C++ code. A class with the
fields of the original performs the call in place, and its methods are proved
to reach exactly that state. Runs are sequences of events and states; the
theorems are about every state of every run.

| files | firmware | what is proved |
|---|---|---|
| `KvStore`, `DtcSpec`, `DtcBatches`, `DtcAgreement`, `DtcHistory`, `DtcMigration`, `DtcReports`, `DtcManager` | `src/ECU/dtcManager.c` | what a report records and for how long; the trouble-code table agrees with the store after any failures; a cleared code does not come back; the legacy migration survives a stop after any write, and no stored flag is lost without a clear |
| `Calendar`, `LocalTime`, `ClockTime`, `ClockOutcomes` | `src/Fiesta_clock/clockTime.c` | what the flash marker proves of the last complete chip write, and exactly when the chip holds UTC while the marker is set; exactly when a call succeeds, and that a change that fails is put back as local time |
| `DateCodec` | `src/common/canDefinitions/fiesta_can_codec.h` | the three date bytes and the second are inverse to the epoch |
| `RtcSync`, `RtcSyncUse` | `src/Fiesta_clock/rtcSync.c` | when the clock may be corrected and when it is, and how long a failure keeps the module away |
| `IsoTpSegments`, `IsoTpSender`, `IsoTpProgress` | `src/ECU/obd-2.c` | the sender against an independent receiver of ISO 15765-2:2016, section 9.6; a helped transfer completes |
| `CanSchedule`, `CanService`, `LossAccounting`, `LossReports`, `EndToEnd` | `src/ECU/can.c`, `src/Clocks/timingDiag.cpp` | fair, spaced, numbered frames that do go out; losses counted, published and given back exactly at the other end |
| `Seqlock`, `RtcTime` | `src/ECU/seqlock.h`, `src/ECU/rtcTime.c`, `src/Adjustometer/sensors.c` | what a lock-free reader accepts was stored by one write, and when it accepts |
| `RpmCapture`, `RpmSpeed` | `src/ECU/rpm.c` | the edge ring and the averaged speed; a steady engine reads its own, a stopped one 0 |
| `PeriodFilter`, `Baseline`, `BaselineRuns` | `src/Adjustometer/sensors.c` | the filter is the mean of a curve; when baseline and dead band open and close |
| `ChargeLamp` | `src/Clocks/chargeLamp.cpp` | when the lamp is dark and when it blinks |
| `IntParser` | `src/common/scDefinitions/sc_command_handlers.c` | for which limits the parser is right |

`Words` holds the unsigned words and the wrapping counter: `Tick(t)` is the
counter at the true time `t`, and `ElapsedIsReal` carries every conclusion from
the counter to true time. True time is in whole units of the counter, so n ticks
between two readings are more than n - 1 units of real time (`ElapsedResolution`):
the 2 ms of `PeriodicFramesAreSpaced` and a separation time of 1 ms in
`BlocksArePaced` are to be read so. `Options` holds the optional value.

## Where the code falls short

Each of these has a lemma with an input the code receives, and an exact condition.

- A detail reported for a code without a stored or permanent flag stays in the
  table and is not in the store: `ReachableAgreement` gives the condition,
  `DetailWithoutFlags` an input.
- A report that arrives before the storage is up marks its entry, and marked
  entries are skipped by the merge, so flags of that entry in the legacy bytes or
  the store can be lost: `ReportBeforeStorage` gives the condition, `FlagLost` an
  input.
- A code reported active before the storage is up, in an entry that has the flags
  already and is not marked, is shown inactive once the poll has loaded the entry:
  `ActiveBeforeStorage` gives the condition, `ActiveForgotten` an input.
- When the marker and the write-back of local time are both refused, the clock
  shows the right time until it restarts, and UTC as local time from then on:
  `RestartShowsTheSame` gives the condition, `RefusedWriteBackShifts` an input.
- With the marker in flash the chip holds something other than UTC exactly if the
  last write that changed it was refused and left local time or a mix
  (`TrustedIsUtc`). All three ways occur: a write-back of local time that takes
  effect without being acknowledged (`LostAcknowledgement`), a write-back that
  leaves a mix (`MixedWriteBack`), and a refused UTC write that leaves a mix, after
  which the module knows the chip as unchecked and still reads as trusted
  (`MixedUtcWrite`). While a run has none of these outcomes the marker means UTC
  (`HarmlessIsTrusted`).
- Reserved separation times are taken as 0, where ISO 15765-2 asks for the
  longest one; `SeparationMeetsStandard` names the values.
- A lamp that blinks stops for 2 s each time the millisecond counter has wrapped
  since the voltage rose: `BlinksExactly` gives the condition, `BlinkStopsAtWrap`
  inputs as dense as the loop takes samples.

## Limits the firmware keeps clear of

These hold of a part of the code on inputs that its callers do not give it.

- An init of the CAN controller forgets the latest attempt, so the 2 ms gap holds
  between inits (`PeriodicFramesAreSpaced`, `InitForgetsGap`); the firmware calls
  it once, at `src/ECU/start.c:417`.
- A call that has just tried an RPM frame serves no slot (`RpmFrameGoesFirst`), so a
  loop that sent a new speed every millisecond would hold the periodic frames back;
  `WaitingSlotIsServed` counts the calls 2 ms after the latest attempt.
- The parser is right exactly for limits of at least 9 on both sides, or limits
  that refuse every text (`RightExactly`); both callers have wider ones.
- A seqlock copy is accepted exactly if no write was under way at its begin and
  the sequence stores since are none or whole wraps (`AcceptedExactly`): after
  2^31 writes in one attempt acceptance proves nothing.

## Model

| member | source | states |
|---|---|---|
| Words.TickDifference | src/ECU/can.c:211-216 | the unsigned difference of two counter readings is the true time between them modulo 2^32 |
| Words.ElapsedIsReal | src/ECU/can.c:211-216 | a period the counter shows as over has truly passed, whatever the wraps; and the other way round while less than one wrap passed |
| Words.ElapsedResolution | src/ECU/can.c:211-216 | between real times, a period the counter shows as over means more than one unit less than it, and one that really passed is shown while less than a wrap has |
| KvStore.StopIsFailedCommit | src/ECU/dtcManager.c:225-232 | stopping with some writes durable leaves the store a failed commit could have left, so every statement about failed commits covers stops |
| KvStore.AlwaysStage | src/ECU/dtcManager.c:225-266 | a property of the store that holds after every prefix of issued writes holds at every moment of the batch |
| KvStore.Store.Commit | src/ECU/dtcManager.c:225-232 | a commit makes a prefix of the staged writes durable in order, all of them if it succeeds |
| DtcBatches.WordDecodes | src/ECU/dtcManager.c:156-158 | a stored word gives back flags and detail |
| DtcBatches.LoadForgets | src/ECU/dtcManager.c:407-439 | loading an entry gives what the records say, independent of the entry before |
| DtcBatches.RecordOpsRecord | src/ECU/dtcManager.c:168-178 | after the writes of an entry, loading it gives the entry back, without detail and timestamp if it has no flags |
| DtcBatches.RewriteKeepsRecord | src/ECU/dtcManager.c:168-178 | writing an entry that is recorded already keeps every entry recorded after each single write |
| DtcBatches.SnapshotRecords | src/ECU/dtcManager.c:238-266 | a whole snapshot records all eleven entries and, with the markers, the two markers |
| DtcBatches.ClearOpsClear | src/ECU/dtcManager.c:604-622 | after all deletions every entry loads as empty and nothing else changed |
| DtcBatches.BatchAlways | src/ECU/dtcManager.c:225-266 | what each prefix of a batch keeps is kept by any outcome of the batch |
| DtcAgreement.LoadFromEffect | src/ECU/dtcManager.c:407-462 | a load or merge replaces exactly the entries it reaches and may not skip, by what its records mean; an entry whose time read fails keeps its old time, and the entries after it stay as they were |
| DtcAgreement.TakeSourceInv | src/ECU/dtcManager.c:552-598 | from either source the table keeps the invariant, and with both markers every entry not marked is recorded |
| DtcAgreement.LoadOrPrepareInv | src/ECU/dtcManager.c:552-598 | a successful load with both markers leaves a table in agreement; without them all entries are marked for the snapshot |
| DtcAgreement.SnapshotKeepsAgreement | src/ECU/dtcManager.c:275-300 | a snapshot that fails after any write keeps the entries not marked in agreement |
| DtcAgreement.ClearAgrees | src/ECU/dtcManager.c:604-622 | a clear of an empty table agrees once it succeeded |
| DtcAgreement.SetActiveInv | src/ECU/dtcManager.c:735-798 | a report keeps the invariant whatever its batch did |
| DtcAgreement.PollInv | src/ECU/dtcManager.c:819-886 | a poll keeps the invariant wherever it stops |
| DtcAgreement.ClearAllInv | src/ECU/dtcManager.c:888-909 | a clear keeps the invariant, done or queued |
| DtcAgreement.StepInv | src/ECU/dtcManager.c:671-909 | every call, every commit of another user of the store and every restart keeps the invariant |
| DtcAgreement.ReachableAgreement | src/ECU/dtcManager.c:735-886 | in every reachable state with storage up, no schema and no clear pending, an entry not marked is what loading would give from the store after any prefix of what is staged; with its detail exactly if it has flags or no detail |
| DtcAgreement.DetailWithoutFlags | src/ECU/dtcManager.c:735-798 | a concrete run in which a detail without flags is in the table and not in the store |
| DtcAgreement.GoodPollSettles | src/ECU/dtcManager.c:819-886 | from any reachable state a due poll whose storage calls succeed leaves nothing pending and all eleven entries recorded, also as the first call of a start |
| DtcHistory.SnapshotMarks | src/ECU/dtcManager.c:238-266 | a successful schema snapshot leaves both markers |
| DtcHistory.ClearBatchKeeps | src/ECU/dtcManager.c:604-622 | every outcome of a clear leaves no new flagged record, and a successful one only codes set since |
| DtcHistory.StepHist | src/ECU/dtcManager.c:671-909 | every step keeps: flagged codes of table and store are among those set active since the clear |
| DtcHistory.NoResurrection | src/ECU/dtcManager.c:888-909 | after a clear, through failed clears, retries, reloads and merges, a code is stored or permanent only if it was set active since |
| DtcHistory.SettledClearIsDurable | src/ECU/dtcManager.c:819-909 | whenever nothing is open the latest clear counts as durable, whether it returned true or a later poll did it |
| DtcHistory.NoResurrectionAcrossRestarts | src/ECU/dtcManager.c:552-622 | if the clear returned true, or a later poll did it, this holds across restarts too, for the table and for what the store would load, and the legacy bytes are never applied again |
| DtcMigration.SnapshotPrefixSafe | src/ECU/dtcManager.c:238-266 | after any prefix of the snapshot's writes, a marker is durable only with the legacy flags of the entry, and a store that has both markers loses neither them nor a flag of the entry |
| DtcMigration.SchemaMarkerIsLast | src/ECU/dtcManager.c:238-266 | the schema marker is durable only after every other write of the snapshot |
| DtcMigration.MigrationKeepsLegacyFlags | src/ECU/dtcManager.c:393-598 | entry by entry, through any stops, failures, restarts and reports of other entries before a clear: whenever the storage is up the entry holds at least every legacy flag, and a store with a marker does; only a new detail of its own inactive code before the storage is up is excluded |
| DtcMigration.StoredFlagsLast | src/ECU/dtcManager.c:238-598 | from a store with both markers, entry by entry, through any stops, failures, restarts and reports before a clear: every flag the store held stays in the table whenever the storage is up, and in every store that may still become durable; the same one report is excluded |
| DtcMigration.ReportBeforeStorage | src/ECU/dtcManager.c:464-475 | for any entry, a report made before the storage was up loses flags of the source exactly if the code is inactive, the entry is or becomes marked, and it did not show those flags |
| DtcMigration.FlagLost | src/ECU/dtcManager.c:451-475 | a run from power-up in which a stored flag is lost that way, from table and store |
| DtcReports.ReportIsShown | src/ECU/dtcManager.c:735-776 | in every run a report is in the table at once: active or not, its detail, both flags of an active code, the time of a code that had no flag; everything else stays |
| DtcReports.ReportIsSaved | src/ECU/dtcManager.c:778-797 | with the storage in order a report whose storage calls succeed is saved at once and leaves nothing to do |
| DtcReports.RepeatIsQuiet | src/ECU/dtcManager.c:747-797 | a report that says nothing new writes nothing and marks nothing |
| DtcReports.LatestReportStands | src/ECU/dtcManager.c:735-886 | until the next report of the code, a clear or a restart the entry is what its latest report left, through polls, loads and failures, if the storage was up or the entry was marked then |
| DtcReports.FirstTimeStands | src/ECU/dtcManager.c:760-768 | a code without a flag keeps the time of its first active report until a clear or a restart, in the table and, once settled and unmarked, in every store that may still become durable |
| DtcReports.StoredForm | src/ECU/dtcManager.c:137-179 | an entry is recorded exactly if bits 0 and 1 of the word under 0xD800 + i are its flags and, with a flag, the next byte is its detail and the word under 0xD900 + i its first time |
| DtcReports.PollIsHeldBack | src/ECU/dtcManager.c:819-833 | in every run a poll changes nothing exactly if nothing is due or, by the counter, the latest try is less than 1000 ms old |
| DtcReports.ClearEmpties | src/ECU/dtcManager.c:888-909 | a clear empties the table whatever the storage does, and the store if its calls succeed; it returns false exactly if it is queued |
| DtcReports.StorageOpensExactly | src/ECU/dtcManager.c:506-550 | the storage comes up exactly if its steps succeed and the legacy bytes are known or all read |
| DtcReports.GoodStartTakesSource | src/ECU/dtcManager.c:671-726 | after a start whose calls succeed the table is what the store holds, or the legacy flags of a store never written, and is recorded |
| DtcReports.ActiveBeforeStorage | src/ECU/dtcManager.c:451-475 | one report before the storage is up, then a poll that works: the code is still shown as reported exactly if it is inactive, or the report left the entry marked, or the legacy bytes are merged and have none for it |
| DtcReports.ActiveForgotten | src/ECU/dtcManager.c:407-475 | a run from power-up in which a code reported active is shown inactive after the poll that brings the storage up |
| DtcManager.Manager.FindIndex | src/ECU/dtcManager.c:185-192 | the index of a registered code, or none |
| DtcManager.Manager.ResetTable | src/ECU/dtcManager.c:324-333 | every entry empty, no mark, nothing else changed |
| DtcManager.Manager.SetMarks | src/ECU/dtcManager.c:344-354 | all marks set or cleared |
| DtcManager.Manager.AnyPending | src/ECU/dtcManager.c:335-342 | whether an entry is marked |
| DtcManager.Manager.CaptureLegacy | src/ECU/dtcManager.c:360-391 | the legacy bytes are read once; a failed read leaves them unchecked |
| DtcManager.Manager.Open | src/ECU/dtcManager.c:506-550 | the storage is up only after the legacy bytes are read |
| DtcManager.Manager.TakeLegacy | src/ECU/dtcManager.c:393-401 | the legacy flags are applied to all entries, or to those not marked |
| DtcManager.Manager.LoadOne | src/ECU/dtcManager.c:407-439 | one entry from its two records: unchanged if the first read fails, with its old time if the second does |
| DtcManager.Manager.LoadAll | src/ECU/dtcManager.c:407-462 | the load loop stops at the first failed read |
| DtcManager.Manager.Take | src/ECU/dtcManager.c:552-598 | the table from the legacy bytes or the store, kept while a clear is queued |
| DtcManager.Manager.LoadOrPrepareSchema | src/ECU/dtcManager.c:552-598 | which source the table comes from and when a schema snapshot is due |
| DtcManager.Manager.TakeAndMark | src/ECU/dtcManager.c:552-598 | the same once both markers are read: the table is taken, and marked for the snapshot if one is missing |
| DtcManager.Manager.SaveRecords | src/ECU/dtcManager.c:168-178 | the two writes of an entry, the second only after the first |
| DtcManager.Manager.SaveOne | src/ECU/dtcManager.c:275-300 | the batch of one entry |
| DtcManager.Manager.SaveSnapshot | src/ECU/dtcManager.c:238-319 | the batch of all entries, then the migration marker, then the schema marker |
| DtcManager.Manager.ClearKeys | src/ECU/dtcManager.c:604-626 | all deletions are tried, whatever fails |
| DtcManager.Manager.Initialize | src/ECU/dtcManager.c:671-726 | the state after the first call of the module |
| DtcManager.Manager.LoadFirst | src/ECU/dtcManager.c:671-715 | the load of an init and what a failed one leaves |
| DtcManager.Manager.SaveFirst | src/ECU/dtcManager.c:671-715 | the schema snapshot of an init |
| DtcManager.Manager.SetActiveCode | src/ECU/dtcManager.c:735-798 | a report in place, unknown codes ignored |
| DtcManager.Manager.ReportEntry | src/ECU/dtcManager.c:735-798 | flags, detail, activity and first time of a report, and whether anything stored changed; what that means over runs is `ReportIsShown` |
| DtcManager.Manager.PersistReport | src/ECU/dtcManager.c:735-798 | a changed entry is saved, or marked while the storage is not in order |
| DtcManager.Manager.PollOnce | src/ECU/dtcManager.c:819-886 | the four parts of a poll in place, each after the one before succeeded |
| DtcManager.Manager.PollNow | src/ECU/dtcManager.c:819-886 | when a poll is due, and its four parts in order |
| DtcManager.Manager.PollParts | src/ECU/dtcManager.c:855-886 | the three later parts, each only after the one before succeeded |
| DtcManager.Manager.PollStorage | src/ECU/dtcManager.c:819-886 | first part: the storage comes up and is merged |
| DtcManager.Manager.LoadOpened | src/ECU/dtcManager.c:819-886 | the storage is up while it loads, and down again if the load fails |
| DtcManager.Manager.PollMarkers | src/ECU/dtcManager.c:819-886 | second part: the schema snapshot ends the migration |
| DtcManager.Manager.PollQueuedClear | src/ECU/dtcManager.c:819-886 | third part: the queued clear |
| DtcManager.Manager.PollSnapshot | src/ECU/dtcManager.c:819-886 | last part: the marked entries as one snapshot |
| DtcManager.Manager.ClearCodes | src/ECU/dtcManager.c:888-909 | a clear in place, true only if the store was cleared |
| DtcManager.Manager.ClearNow | src/ECU/dtcManager.c:888-909 | the clear itself: table emptied, store cleared or the clear queued |
| Calendar.DaysRoundTrip | src/common/canDefinitions/fiesta_can_codec.h:107-131 | the date of a day number has that day number |
| Calendar.DateRoundTrip | src/common/canDefinitions/fiesta_can_codec.h:133-152 | the day number of a date gives the date back |
| Calendar.DaysFollow | src/Fiesta_clock/clockTime.c:105-114 | day 0 is 1 January 1970 and every day is followed by the day after, by the lengths of the months |
| Calendar.SecondsRoundTrip | src/Fiesta_clock/clockTime.c:105-114 | fields of a second give the second back, and are valid |
| Calendar.DateTimeRoundTrip | src/Fiesta_clock/clockTime.c:105-114 | valid fields survive the way through the epoch |
| DateCodec.DecodeOfEncode | src/common/canDefinitions/fiesta_can_codec.h:81-152 | for every second of 2020..2035, decoding the three bytes with the second gives the epoch back |
| DateCodec.EncodeOfDecode | src/common/canDefinitions/fiesta_can_codec.h:133-152 | bytes that decode are the bytes of the epoch they decode to |
| DateCodec.PackedFields | src/common/canDefinitions/fiesta_can_codec.h:72-95 | the packed fields come back as given, the year brought into 2020..2035; what is no month, day or time packs to 0 |
| DateCodec.ZerosStored | src/common/canDefinitions/fiesta_can_codec.h:107-131 | zeros are stored exactly outside the range |
| DateCodec.ZerosNeverDecode | src/common/canDefinitions/fiesta_can_codec.h:133-152 | zeros decode to nothing |
| DateCodec.RangeInSeconds | src/common/canDefinitions/fiesta_can_codec.h:107-131 | the range is 1577836800 up to 2082758399 |
| DateCodec.PutUtcDateTime | src/common/canDefinitions/fiesta_can_codec.h:81-131 | the buffer holds the packed date, or zeros |
| DateCodec.GetUtcDateTime | src/common/canDefinitions/fiesta_can_codec.h:133-152 | the epoch of the buffer, untouched on failure |
| DateCodec.PutThenGet | src/common/canDefinitions/fiesta_can_codec.h:81-152 | what is put is got, through the buffer, exactly for epochs in the range |
| LocalTime.LastSundayIsLast | src/Fiesta_clock/clockTime.c:141-178 | the change days of Directive 2000/84/EC, Articles 2 and 3: a Sunday of the month with none after it |
| LocalTime.SummerInsideYear | src/Fiesta_clock/clockTime.c:141-178 | summer time begins and ends inside the year, in that order |
| LocalTime.LocalReadsBack | src/Fiesta_clock/clockTime.c:254-275 | a local time converts to UTC and back to itself, one hour later inside the spring gap |
| LocalTime.AutumnHourIsFirstPass | src/Fiesta_clock/clockTime.c:254-275 | the repeated hour has two UTC times, an hour apart, and stands for the first, in summer time |
| LocalTime.UtcOfIsFirst | src/Fiesta_clock/clockTime.c:254-275 | no earlier UTC time shows the same local time |
| ClockTime.StepInv | src/Fiesta_clock/clockTime.c:88-275 | every write, settle, second and restart keeps what marker, chip and module say consistent |
| ClockTime.MarkerMeansUtc | src/Fiesta_clock/clockTime.c:52-103 | in every run the marker is in flash only while the last complete chip write was UTC, "local" implies a known absent marker, and local time is never written while the flash holds the marker |
| ClockTime.TrustedIsUtc | src/Fiesta_clock/clockTime.c:116-139 | in every run, while the flash holds the marker or the module reads as trusted, the chip truly holds UTC exactly if the last write that changed it was not a refused one that left local time or a mix |
| ClockTime.HarmlessIsTrusted | src/Fiesta_clock/clockTime.c:196-252 | while no UTC write is refused leaving a mix and every write-back is acknowledged or changes nothing, the marker and the answer "trusted" mean the chip holds UTC, whatever else fails |
| ClockTime.LostAcknowledgement | src/Fiesta_clock/clockTime.c:196-252 | a run in which a write-back that took effect unacknowledged ends with local fields marked as UTC |
| ClockTime.MixedWriteBack | src/Fiesta_clock/clockTime.c:196-252 | a run in which a write-back that left a mix ends with the mix marked as UTC |
| ClockTime.MixedUtcWrite | src/Fiesta_clock/clockTime.c:116-139 | a run in which a refused UTC write left a mix that reads as trusted, although the chip is known as unchecked |
| ClockTime.LocalTimeReadsBack | src/Fiesta_clock/clockTime.c:254-275 | a local time whose write succeeds reads back as itself, one hour later inside the spring gap |
| ClockTime.WriteSucceeds | src/Fiesta_clock/clockTime.c:181-240 | success means the chip holds the second, verified, and the marker is confirmed |
| ClockTime.FallBackShowsSameInstant | src/Fiesta_clock/clockTime.c:196-275 | in every run a settle that ends with local fields shows what the clock showed before, and a write that ends with acknowledged local fields shows the instant it was told |
| ClockOutcomes.EpochRange | src/Fiesta_clock/clockTime.c:110-114 | the epochs the clock accepts are exactly the seconds from 2000-01-01 00:00:00 to 2099-12-31 23:59:59 |
| ClockOutcomes.WriteOkExactly | src/Fiesta_clock/clockTime.c:181-240 | a write succeeds exactly if the chip acknowledges it, the read-back comes within a second with integrity, and the marker is stored or can be |
| ClockOutcomes.LocalRefusedExactly | src/Fiesta_clock/clockTime.c:254-274 | a local time is refused exactly if it is no date of the clock's years or its instant is outside them; otherwise its instant is written |
| ClockOutcomes.SettleOkExactly | src/Fiesta_clock/clockTime.c:242-252 | a settle succeeds exactly if nothing is open, or the chip reads and the marker can be stored; it then leaves nothing open |
| ClockOutcomes.StartOkExactly | src/Fiesta_clock/clockTime.c:62-80 | a start succeeds exactly if the flash can be reached and answers |
| ClockOutcomes.FlashOpensOnce | src/Fiesta_clock/clockTime.c:39-103 | after a start or a settle that reached the flash no later call depends on opening it again |
| ClockOutcomes.FailedWriteThenSettle | src/Fiesta_clock/clockTime.c:215-252 | a write that failed at the chip is never marked by a later settle; one that failed at the flash is, unless local time was put back |
| ClockOutcomes.WrittenTimeRuns | src/Fiesta_clock/clockTime.c:116-171 | after a write that succeeded the clock shows the written instant and every second that passes, as trusted |
| ClockOutcomes.RefusedWriteShowsTheSame | src/Fiesta_clock/clockTime.c:225-240 | a refused write without effect leaves chip, flash and the time shown as they were |
| ClockOutcomes.RestartShowsTheSame | src/Fiesta_clock/clockTime.c:62-80 | in every run a restart that reads the flash shows the same local time exactly if the marker is there, or the module took the chip for local time, or the fields are out of range |
| ClockOutcomes.RefusedWriteBackShifts | src/Fiesta_clock/clockTime.c:196-223 | a run in which marker and write-back are refused and the restart shows UTC as local time |
| ClockOutcomes.FailurePutsLocalTimeBack | src/Fiesta_clock/clockTime.c:196-252 | in every run a write or settle that ends without success while the marker is known absent puts its instant back with one write of local time; acknowledged, the chip holds it, the module says so, and the instant is shown now and after a restart; no other local write is made |
| ClockTime.Clock.Start | src/Fiesta_clock/clockTime.c:62-80 | what the module takes the chip for after a start |
| ClockTime.Clock.StoreUtcMarker | src/Fiesta_clock/clockTime.c:88-103 | the marker is believed only as read back |
| ClockTime.Clock.KeepLocalTime | src/Fiesta_clock/clockTime.c:196-210 | local fields are written back and believed only if acknowledged |
| ClockTime.Clock.FinishChange | src/Fiesta_clock/clockTime.c:215-223 | the marker after a good write; without success local time exactly where the marker is known absent, which `FailurePutsLocalTimeBack` states over runs |
| ClockTime.Clock.WriteUtcTime | src/Fiesta_clock/clockTime.c:225-240 | a UTC write in place, with read-back and marker |
| ClockTime.Clock.SettleTime | src/Fiesta_clock/clockTime.c:242-252 | an unfinished change is finished from the chip's own time |
| ClockTime.Clock.WriteLocalTime | src/Fiesta_clock/clockTime.c:254-275 | a local time is checked, converted and written as UTC |
| ClockTime.Clock.ReadLocalTime | src/Fiesta_clock/clockTime.c:141-178 | the displayed time under each belief |
| ClockTime.Clock.ReadUtcTime | src/Fiesta_clock/clockTime.c:116-139 | trusted only with marker and chip integrity |
| RtcSync.KeepsAwayAfterFailure | src/Fiesta_clock/rtcSync.c:42-102 | in every run no access happens within 30 s of true time after a failed one |
| RtcSync.WritesAreJustified | src/Fiesta_clock/rtcSync.c:61-81 | every write follows its own good read; a trusted clock is rewritten only if more than 2 s off and 600 s after every earlier successful write |
| RtcSync.WritesWhenDue | src/Fiesta_clock/rtcSync.c:61-81 | the other way round: a used frame that ends without a write found a trusted clock that was near enough or corrected within 600 s |
| RtcSync.UsesOnlyNewFrames | src/Fiesta_clock/rtcSync.c:83-102 | the frame used is complete, valid and received after the tick before, which by the counter was at most 500 ms ago; a dropped frame is never used later |
| RtcSyncUse.GpsFrameIsTaken | src/Fiesta_clock/rtcSync.c:29-40 | the frame the GPS node composes is taken as its seconds, valid exactly if its status says so and the clock can hold the year |
| RtcSyncUse.TickActs | src/Fiesta_clock/rtcSync.c:83-102 | in every run, with no access failed less than 30 s ago, a tick settles an open change and reads the clock exactly for a valid new frame within 500 ms, outside edits; a clock not trusted is then written |
| RtcSync.Synchronizer.ReceiveFrame | src/Fiesta_clock/rtcSync.c:29-40 | a truncated frame changes nothing, a complete one replaces the waiting one |
| RtcSync.Synchronizer.NoteFailure | src/Fiesta_clock/rtcSync.c:50-59 | a failed access starts the retry time |
| RtcSync.Synchronizer.ApplyFrame | src/Fiesta_clock/rtcSync.c:61-81 | one frame in place, with the accesses it makes |
| RtcSync.Synchronizer.ReleaseHolds | src/Fiesta_clock/rtcSync.c:42-47 | holds end once their time is over |
| RtcSync.Synchronizer.SettleIfDue | src/Fiesta_clock/rtcSync.c:91-94 | an unfinished change is settled while nothing is held |
| RtcSync.Synchronizer.TickOnce | src/Fiesta_clock/rtcSync.c:83-102 | one pass in place: holds released, an open change settled, a waiting frame used or dropped |
| IsoTpSegments.SegmentShape | src/ECU/obd-2.c:339-384 | first frame and consecutive frames of the segmentation, ISO 15765-2:2016, section 9.6 |
| IsoTpSegments.ReceiverFollows | src/ECU/obd-2.c:339-512 | after k frames an independent receiver holds min(length, 6+7(k-1)) bytes of the payload and expects the next number |
| IsoTpSegments.SegmentsReassemble | src/ECU/obd-2.c:339-512 | the receiver completes with the payload exactly after the last frame |
| IsoTpSender.NextFrameIs | src/ECU/obd-2.c:461-512 | the frame built from buffer, offset and index is the next one of the segmentation |
| IsoTpSender.WireIsPrefix | src/ECU/obd-2.c:339-512 | in every run, for any flow control, foreign frames, failures and timeouts, the frames sent are a prefix of the segmentation, and done exactly when the independent receiver has the payload |
| IsoTpSender.BlocksArePaced | src/ECU/obd-2.c:389-512 | a block holds at most the granted frames, each the decoded separation time of true time after the one before |
| IsoTpSender.SendsAfterClearToSend | src/ECU/obd-2.c:389-460 | consecutive frames follow only a clear to send of the tester, with its block size and separation time |
| IsoTpSender.FramesMakeProgress | src/ECU/obd-2.c:461-512 | every frame that goes out leaves strictly fewer bytes, none otherwise, and the transfer completes with the last |
| IsoTpSender.SeparationMeetsStandard | src/ECU/obd-2.c:197-209 | the decoded time is at least the requested one exactly for values the standard does not reserve |
| IsoTpProgress.TransferStarts | src/ECU/obd-2.c:339-384 | a payload of 1..160 bytes given while nothing is being sent starts its transfer if its first frame is accepted; anything else changes nothing |
| IsoTpProgress.IdentifiersStand | src/ECU/obd-2.c:367-372 | a transfer keeps the two identifiers it was started with |
| IsoTpProgress.DueFrameGoesOut | src/ECU/obd-2.c:461-497 | in every run a pass of a block puts out the next frame exactly if it is accepted and is the first of the block or its separation time has passed |
| IsoTpProgress.BlockEndsWhenFull | src/ECU/obd-2.c:505-512 | after a frame that did not complete the transfer the tester is asked again exactly if the block holds the granted number of frames |
| IsoTpProgress.FlowControlIsObeyed | src/ECU/obd-2.c:389-460 | a wait obeys the first deciding frame of the tester among eight: 30 opens a block with its parameters, 31 starts the timer again, 32 ends the transfer; without one nothing changes |
| IsoTpProgress.EndsEarlyExactly | src/ECU/obd-2.c:394-487 | a transfer ends early only after a true second without flow control, an abort, or a due frame refused for a true second; and then it does, up to a wrap |
| IsoTpProgress.HelpedTransferCompletes | src/ECU/obd-2.c:389-512 | from any open state, while the tester clears to send in time and due frames are accepted, the receiver has the payload after a bounded number of passes |
| IsoTpSender.Sender.Send | src/ECU/obd-2.c:339-384 | a payload in place: refused, sent as one frame, or begun with the first frame |
| IsoTpSender.Sender.BuildFirst | src/ECU/obd-2.c:339-384 | the first frame of a payload |
| IsoTpSender.Sender.BuildConsecutive | src/ECU/obd-2.c:461-512 | the next consecutive frame from buffer, offset and index, padded with zeros |
| IsoTpSender.Sender.Step | src/ECU/obd-2.c:389-512 | one pass of the machine in place |
| IsoTpSender.Sender.AwaitFlowControl | src/ECU/obd-2.c:389-460 | a timeout ends the transfer, otherwise waiting frames are read |
| IsoTpSender.Sender.Obey | src/ECU/obd-2.c:389-460 | what a flow control frame does: continue, wait or abort |
| IsoTpSender.Sender.StartBlock | src/ECU/obd-2.c:426-433 | block size and separation time of a clear to send, the block counted anew |
| IsoTpSender.Sender.DrainFrames | src/ECU/obd-2.c:389-460 | waiting frames are read up to the first that decides |
| IsoTpSender.Sender.SendConsecutive | src/ECU/obd-2.c:461-512 | a consecutive frame when due, counted only if it went out |
| IsoTpSender.Sender.CountSent | src/ECU/obd-2.c:491-512 | offset, index and block after a frame that went out |
| IsoTpSender.Sender.CountBlock | src/ECU/obd-2.c:505-512 | one frame more of the block, and after the last the tester is asked again |
| CanSchedule.NumbersAreConsecutive | src/ECU/can.c:203-326 | the frames attempted, RPM and periodic, carry consecutive numbers modulo 256 across failures and inits |
| CanSchedule.PeriodicFramesAreSpaced | src/ECU/can.c:211-230 | between inits no periodic frame is attempted within 2 ms of true time after the frame before it |
| CanSchedule.InitForgetsGap | src/ECU/can.c:142-153 | a run in which the first frame after an init follows at once |
| CanSchedule.PendingSlotIsServed | src/ECU/can.c:203-230 | however often slots are queued again, a pending slot is attempted within five service calls that are not held back, made on their own, inside queueing or after the RPM frame |
| CanSchedule.WorkIsFrames | src/ECU/can.c:211-230 | every service call that is not held back attempts exactly one periodic frame, and nothing else attempts one |
| CanSchedule.RankFalls | src/ECU/can.c:217-229 | serving another slot strictly shortens the wait of a pending one |
| CanSchedule.LatestSnapshotIsSent | src/ECU/can.c:203-230 | a periodic frame is the latest snapshot queued for its slot, with the frame number in byte 0 |
| CanSchedule.RpmPolicy | src/ECU/can.c:291-326 | an RPM frame is tried again not before 10 ms after a failure, otherwise only for a new value or after 100 ms, and always then |
| CanService.ServesExactly | src/ECU/can.c:211-230 | in every run a call serves a slot exactly if the controller was started, some slot waits since the init, and no attempt since the init ended less than 2 ms ago by the counter |
| CanService.WaitingSlotIsServed | src/ECU/can.c:203-230 | a waiting slot is attempted within five calls that come 2 ms or more of true time after the latest attempt, whatever is queued again |
| CanService.FiveCallsServe | src/ECU/can.c:211-230 | five calls without an RPM frame, each 2 ms after the end of the one before, are such calls |
| CanService.RpmFrameGoesFirst | src/ECU/can.c:291-326 | a call that has just tried an RPM frame serves no slot unless the send took 2 ms |
| CanService.NothingBeforeStart | src/ECU/can.c:211-326 | while the controller is not started nothing is attempted |
| CanService.AttemptsAreFrames | src/ECU/can.c:203-326 | the frames a call gives to the controller are those of its attempts, in order, each on its own identifier |
| CanService.RpmFrameShowsValue | src/ECU/can.c:305-310 | bytes 1 and 2 of an RPM frame are the value modulo 65536, the others but the number zero |
| CanSchedule.Publisher.ServicePeriodic | src/ECU/can.c:211-230 | the round in place: the first pending slot from the next one on is served, none while held back |
| CanSchedule.Publisher.NextPending | src/ECU/can.c:217-221 | the search in place: the first pending slot from the next one on, and the one after it is next |
| CanSchedule.Publisher.QueuePeriodic | src/ECU/can.c:203-207 | queueing replaces the snapshot and serves |
| CanSchedule.Publisher.Initialize | src/ECU/can.c:142-199 | an init forgets slots and RPM state, not the number |
| CanSchedule.Publisher.UpdateRpm | src/ECU/can.c:291-323 | the RPM frame in place, with retry and heartbeat |
| CanSchedule.Publisher.NoteRpm | src/ECU/can.c:305-323 | number, times and retry after an RPM frame, for either outcome |
| CanSchedule.Publisher.UpdateAndService | src/ECU/can.c:291-326 | the whole call, with the frames it gives to the controller in order |
| LossAccounting.UnwrapTracks | src/Clocks/timingDiag.cpp:280-287 | with neighbours within -128..127 the unwrapped number is the true one |
| LossAccounting.StepInv | src/Clocks/timingDiag.cpp:246-431 | frames, reports and their removal keep the books |
| LossAccounting.LossConservation | src/Clocks/timingDiag.cpp:381-431 | at every moment the published losses less the late frames numbered from the first one on are the accounted numbers not received |
| LossAccounting.NumberIsTrue | src/Clocks/timingDiag.cpp:268-293 | in every run the unwrapped number is the true one |
| LossAccounting.EachReportConserved | src/Clocks/timingDiag.cpp:246-266 | report by report: while in the history, its loss less the late frames charged to it is what is missing of its range |
| LossAccounting.LateFramesAttributed | src/Clocks/timingDiag.cpp:246-266 | a late frame is charged once, to the one report whose range holds it, or to "old"; the late table never outgrows the history |
| LossAccounting.LateTableFits | src/Clocks/timingDiag.cpp:259-263 | distinct reports of the history never need more entries than the history has |
| LossReports.PublishedCountsAddUp | src/Clocks/timingDiag.cpp:390-397 | in every run the published counts and those of the open window add up to all frames and to all late frames that arrived |
| LossReports.PublishesExactly | src/Clocks/timingDiag.cpp:381-389 | a call publishes exactly if the lock is free and no report waits |
| LossReports.PublishAccountsAll | src/Clocks/timingDiag.cpp:405-422 | a report that is published accounts every number received so far |
| LossReports.HistoryHoldsFour | src/Clocks/timingDiag.cpp:409-416 | the history holds the latest four accounted reports |
| LossReports.PublishedLossConservation | src/Clocks/timingDiag.cpp:381-431 | the losses of all published reports less the late frames of all reports and of the open window, those before the first frame apart, are the accounted numbers that have not arrived |
| LossReports.PublishedReportConserved | src/Clocks/timingDiag.cpp:246-266 | report by report: its published loss less what all later reports and the open window give back to it by name is what is missing of its range, for the latest four exactly, for older ones at least |
| LossReports.TablesAddUp | src/Clocks/timingDiag.cpp:246-266 | every published report's late frames are those its table names and those of no report |
| LossAccounting.Receiver.Holder | src/Clocks/timingDiag.cpp:248-251 | the first report of the history whose range holds a number |
| LossAccounting.Receiver.LateEntry | src/Clocks/timingDiag.cpp:253-258 | the entry of a report in the late table |
| LossAccounting.Receiver.CountLateFrame | src/Clocks/timingDiag.cpp:246-266 | the search and the table in place, never written past its end |
| LossAccounting.Receiver.CanFrame | src/Clocks/timingDiag.cpp:268-293 | one frame in place |
| LossAccounting.Receiver.NumberFrame | src/Clocks/timingDiag.cpp:278-287 | the unwrapped number in place; the first frame starts the accounts just below its own |
| LossAccounting.Receiver.Push | src/Clocks/timingDiag.cpp:409-416 | the history shifts by one in place, the oldest account dropped |
| LossAccounting.Receiver.PublishWindow | src/Clocks/timingDiag.cpp:381-431 | a report in place, the whole window in it, or nothing while the lock is taken or a report waits |
| LossAccounting.Receiver.TakeWindow | src/Clocks/timingDiag.cpp:391-397 | what was collected is handed over and the window is empty |
| EndToEnd.ReceiverSeesTheByte | src/Clocks/timingDiag.cpp:278-287 | the receiver's step is determined by the first byte the sender put in the frame |
| EndToEnd.LossesAreUndeliveredAttempts | src/Clocks/timingDiag.cpp:405-422 | for any run of the sender and any near and unduplicated delivery of its attempts, seen only through their first bytes, published losses less late frames are the attempts of that run from the first delivered to the last accounted, both delivered, that never arrived |
| Seqlock.AcceptedIsOneWrite | src/ECU/seqlock.h:69-74 | with fewer than 2^31 writes in the attempt, an accepted copy is part of the one version current throughout |
| Seqlock.AcceptedExactly | src/ECU/seqlock.h:69-74 | a reader accepts exactly if no write was under way and the stores since are none or whole wraps |
| Seqlock.AcceptedReadsAreConsistent | src/ECU/seqlock.h:36-74 | the same in every interleaving of single loads and stores |
| Seqlock.UndisturbedIsAccepted | src/ECU/seqlock.h:58-74 | in every interleaving an attempt with no write under way at its begin and none begun since is accepted |
| Seqlock.FeedbackIsOneWindow | src/Adjustometer/sensors.c:671-710 | accepted feedback takes four words and number from one window |
| Seqlock.FeedbackAge | src/Adjustometer/sensors.c:704-705 | the age is the true one up to 65535 us while the counter has not wrapped, and never too high |
| Seqlock.GetFeedback | src/Adjustometer/sensors.c:671-710 | the first of three attempts that is consistent, or none |
| RtcTime.ReadsOneFrame | src/ECU/rtcTime.c:39-63 | in every interleaving a read gives 0, or one frame's UTC plus whole seconds of its own age below 3 s |
| RtcTime.ReadsAreFresh | src/ECU/rtcTime.c:29-37 | while core 0 expires the time in between, the age is the true one, across wraps |
| RtcTime.AnswerIsExact | src/ECU/rtcTime.c:39-63 | in every interleaving an accepted copy is answered with its UTC and age exactly if it is a time younger than 3 s by the counter, with 0 otherwise |
| RtcTime.AttemptDecides | src/ECU/rtcTime.c:39-63 | an attempt is accepted exactly if no write was under way or has begun, and then holds the latest time stored; the reader gives up only after four that were not |
| RtcTime.ProgramsAreEnabled | src/ECU/rtcTime.c:20-63 | neither program waits: the next step of a publication and of an attempt is always possible, and the fourth of a publication makes its time the latest |
| RtcTime.ExpiresExactly | src/ECU/rtcTime.c:29-37 | core 0 forgets the time exactly if it is set and three seconds or more old by the counter |
| RtcTime.Cell.Publish | src/ECU/rtcTime.c:20-25 | both words are stored and an even sequence becomes another even one |
| RtcTime.Cell.Store | src/ECU/rtcTime.c:27-27 | a frame's UTC with the time it was received |
| RtcTime.Cell.Expire | src/ECU/rtcTime.c:29-37 | the time is forgotten exactly if it was three seconds old |
| RtcTime.GetUtc | src/ECU/rtcTime.c:39-63 | the first consistent attempt of four decides; none gives 0 |
| RpmCapture.SpanBounds | src/ECU/rpm.c:203-217 | spans of the ring are sums of its periods: no wrap is lost |
| RpmCapture.EdgesArePlausible | src/ECU/rpm.c:60-88 | in every state neighbouring edges are 94 us to under 500 ms apart and the timeout is 20 to 500 ms |
| RpmCapture.SpeedInRange | src/ECU/rpm.c:218-226 | every speed of plausible edges is 4..19947, with no division by zero |
| RpmCapture.PublishedInRange | src/ECU/rpm.c:185-242 | every published speed is 0 or 4..19947 |
| RpmCapture.PublishedIsMean | src/ECU/rpm.c:185-242 | after every pass the speed is the integer nearest to 60e6 periods over 32 times their span, over the longest suffix within 25 ms or one period; 0 exactly below two edges |
| RpmSpeed.EdgeCounts | src/ECU/rpm.c:60-88 | what an edge does: afresh after a silence of three periods (20..500 ms, 500 ms after one edge), dropped below 94 us, otherwise the next of the row |
| RpmSpeed.PassForgets | src/ECU/rpm.c:185-201 | a pass forgets the row exactly if its latest edge is that old; then, and with one edge, the speed is 0 |
| RpmSpeed.StoppedEngineReadsZero | src/ECU/rpm.c:185-201 | half a second of true time after the latest edge that counted a pass publishes 0, up to a wrap |
| RpmSpeed.SteadyEngineReadsItsSpeed | src/ECU/rpm.c:60-242 | after eleven edges one period apart, whatever came before, a pass publishes 60 s over 32 periods to the nearest integer |
| RpmCapture.RingPush | src/ECU/rpm.c:73-87 | an accepted edge keeps the nine slots the latest edges |
| RpmCapture.Rpm.Interrupt | src/ECU/rpm.c:60-88 | an edge in place |
| RpmCapture.Rpm.Process | src/ECU/rpm.c:185-242 | a processing pass in place |
| RpmCapture.Rpm.Average | src/ECU/rpm.c:203-226 | the loop back through the ring computes that speed |
| PeriodFilter.AreaIsIntegral | src/Adjustometer/sensors.c:211-231 | the area the loop adds is the integral of the curve through the samples |
| PeriodFilter.CurvePassesSamples | src/Adjustometer/sensors.c:200-210 | that curve has every recorded sample at its own time |
| PeriodFilter.ConsumedIsCovered | src/Adjustometer/sensors.c:211-231 | microseconds consumed and left add up to the period |
| PeriodFilter.FilterIsMeanOfCurve | src/Adjustometer/sensors.c:191-234 | the result is the mean over the latest drive period to the nearest integer, within the range of the samples used |
| PeriodFilter.RecordedIsRow | src/Adjustometer/sensors.c:191-210 | in true time the recorded samples are exactly the latest arrivals back to the first gap of more than 5 ms |
| PeriodFilter.RingPush | src/Adjustometer/sensors.c:199-207 | a new interval keeps the 32 slots the latest intervals |
| PeriodFilter.Filter.AverageDrivePeriod | src/Adjustometer/sensors.c:191-234 | a sample in place: recorded, started afresh after a gap, or ignored at the same time |
| PeriodFilter.Filter.Sum | src/Adjustometer/sensors.c:211-234 | the loop back through the ring computes that mean |
| Baseline.FloorShiftIsFloor | src/Adjustometer/sensors.c:15-23 | the corrected truncating division rounds down |
| Baseline.Ema | src/Adjustometer/sensors.c:144-178 | each window moves strictly nearer to a different input |
| Baseline.EmaReaches | src/Adjustometer/sensors.c:144-178 | a constant input is reached exactly: no truncation stall |
| Baseline.ReadyIsVerified | src/Adjustometer/sensors.c:256-336 | ready only after an unbroken second of true time of windows within 500 Hz of the locked candidate; the final baseline is too |
| Baseline.BaselineIsFinal | src/Adjustometer/sensors.c:309-397 | a ready baseline is the same in every later state before a reset |
| Baseline.PulseIsHeld | src/Adjustometer/sensors.c:336-380 | a non-zero deviation exceeds 40 Hz, and a change from zero ends eight windows of its sign at 50 Hz or more |
| BaselineRuns.EmaMovesAQuarter | src/Adjustometer/sensors.c:162-177 | a window moves the filtered frequency a quarter of the way, rounded down, at least one hertz |
| BaselineRuns.TrackMovesAQuarter | src/Adjustometer/sensors.c:267-272 | the estimate moves a quarter of the way, rounded down |
| BaselineRuns.PulseIsExact | src/Adjustometer/sensors.c:336-380 | in every run of a ready sensor the deviation published is the one just judged exactly if eight in a row of one sign and 50 Hz or more opened the dead band and none since was 40 Hz or less; otherwise 0 |
| BaselineRuns.PastIsJudged | src/Adjustometer/sensors.c:336-341 | what is judged is each window's frequency against the final baseline |
| BaselineRuns.LocksExactly | src/Adjustometer/sensors.c:257-298 | a window locks a candidate exactly 250 ms into the convergence, or after 80 ms with six calm windows, by the counter |
| BaselineRuns.VerifiesExactly | src/Adjustometer/sensors.c:299-334 | a window ends the verification exactly after a second, and restarts the convergence exactly if it is more than 500 Hz off |
| BaselineRuns.SteadySignalBecomesReady | src/Adjustometer/sensors.c:239-334 | from a reset a steady signal has a ready baseline of exactly its frequency after 250 ms and a second |
| Baseline.Sensor.ProcessFrequency | src/Adjustometer/sensors.c:239-382 | one window in place |
| Baseline.Sensor.ConvergeOn | src/Adjustometer/sensors.c:257-298 | tracking, stable windows and the lock |
| Baseline.Sensor.VerifyBy | src/Adjustometer/sensors.c:299-334 | restart on drift, ready after the verification time, tracking in between |
| Baseline.Sensor.HoldZero | src/Adjustometer/sensors.c:336-380 | the dead band and its release |
| Baseline.Sensor.ResetState | src/Adjustometer/sensors.c:558-592 | nothing is remembered |
| Baseline.Sensor.DiscardWindow | src/Adjustometer/sensors.c:385-397 | a lost capture breaks convergence and verification, not a ready baseline |
| ChargeLamp.DoneIsConfirmed | src/Clocks/chargeLamp.cpp:10-21 | a confirmation means some unbroken stretch of 2 s of true time |
| ChargeLamp.ChargingIsCharged | src/Clocks/chargeLamp.cpp:36-77 | the charging flag is what the completed stretches say, across wraps |
| ChargeLamp.DarkExactly | src/Clocks/chargeLamp.cpp:36-77 | not blinking, the lamp is dark exactly if since the last loss of data or engine a stretch above 13200 mV lasted 2 s and no stretch below 12900 mV of 2 s completed after it |
| ChargeLamp.BlinksExactly | src/Clocks/chargeLamp.cpp:63-76 | it blinks only while samples above 15000 mV held for 2 s of true time, and exactly while their stretch, modulo the counter, is 2 s or longer |
| ChargeLamp.BlinkPhase | src/Clocks/chargeLamp.cpp:66-75 | while it blinks it is lit every other 250 ms counted from the first confirmed sample of the row, beginning lit |
| ChargeLamp.BlinkStopsAtWrap | src/Clocks/chargeLamp.cpp:63-76 | samples above the limit every p ms, for any p up to 2 s: the lamp blinks at the last one before the counter wraps and not at the first one after |
| ChargeLamp.ChargeLampConfirmation.Track | src/Clocks/chargeLamp.cpp:10-21 | one sample of a confirmation in place |
| ChargeLamp.LampControl.ProcessSample | src/Clocks/chargeLamp.cpp:36-77 | one sample of the lamp in place |
| ChargeLamp.LampControl.JudgeVoltage | src/Clocks/chargeLamp.cpp:51-76 | the three confirmations and what is shown |
| ChargeLamp.LampControl.Reset | src/Clocks/chargeLamp.cpp:25-34 | charging has to be confirmed again |
| IntParser.ParseMeets | src/common/scDefinitions/sc_command_handlers.c:164-197 | for limits with room for a digit of either sign, the parser gives the number denoted, exactly if within the limits, for texts of any length |
| IntParser.RightExactly | src/common/scDefinitions/sc_command_handlers.c:164-197 | the limits for which it is right for every text |
| IntParser.WrongText | src/common/scDefinitions/sc_command_handlers.c:180-192 | for all other limits, a text of one digit on which it errs |
| IntParser.ParseIntIn | src/common/scDefinitions/sc_command_handlers.c:164-197 | the loop in place for any limits, with every intermediate inside 64 bits |
| IntParser.ParseI16 | src/common/scDefinitions/sc_command_handlers.c:199-207 | exactly the texts of 16-bit numbers, with their value |
| IntParser.ParseI32 | src/common/scDefinitions/sc_command_handlers.c:209-217 | exactly the texts of 32-bit numbers, with their value |

## Left out

- Drivers: the CAN controllers, the layout of the key-value log, the RTC bus and
  the capture hardware are nondeterministic outcomes; a successful read is
  truthful, and writes of a batch become durable in order.
- JaszczurHAL is not part of this model: its elapsed and deadline tests are taken
  as "at least the period, modulo 2^32", its calendar as the Gregorian one and its
  time zone as the rule of Directive 2000/84/EC.
- DtcMigration.MigrationKeepsLegacyFlags: runs without a clear, which is there to remove
  flags, and for the entry without the report that `ReportBeforeStorage` characterises.
- DtcMigration.StoredFlagsLast: the same runs.
- ClockTime.FallBackShowsSameInstant: a write that leaves local fields behind a refused
  write-back is not part of it, since the chip may then hold anything.
- Baseline.Ema: the sliding branch of `src/Adjustometer/sensors.c:150-161` is not modelled; in
  the default build the drive-period filter is used once the baseline is ready.
- LossAccounting.NumberIsTrue: the unwrapped number is an `int32_t` and the report index a
  `uint32_t` in the firmware; both are unbounded here.
- A frame the controller reports as failed and still sends counts as not sent.
- Seqlock.AcceptedReadsAreConsistent: sequential consistency; the fences that give it on
  the two cores are not modelled.
- RpmCapture.EdgesArePlausible: distances are modulo the microsecond counter; a silence of
  more than 71 minutes without a processing pass is not told apart.
- RpmCapture.PublishedIsMean: fewer than 2^32 edges arrive between two processing passes.
- RtcTime.ReadsAreFresh: core 0 looks at its time, and a reader at the clock, within 24 days.
- ChargeLamp.DarkExactly: samples are at most 2^32 - 2000 ms apart; the loop takes one on every pass.
- PeriodFilter.FilterIsMeanOfCurve: exact real arithmetic in place of `float`.
- Baseline.PulseIsHeld: frequencies are below 2^30 Hz, so the signed casts of the code
  cannot overflow; the value of the drive-period filter is an input.
- CanSchedule.Publisher.QueuePeriodic: the pending mask is an array of flags, the payloads
  are eight-byte sequences.
- Locks, watchdog feeding, logging, statistics, failure counters and code getters.
- Composing the frames' other bytes, the frame sources of the diagnostic transport and the
  request side of the services.
- The weekday, the edit screen and the sources of the time zone.
- Fan, heater, glow plugs, gauges, displays, buzzers and the pump control law: short
  branches or tuning without a crisp specification.
