# Totem diagnostics: a Dafny model

A Dafny 4.11 model of the left half's diagnostic pipeline, with proofs about it: the crash-safe
event journal and its asynchronous writer, the timing inbox that feeds on the journal's own
writes, the numbered dump from the ring to the host's verdict, the eviction policy, the recovery
ladder, and the radio and HID observers.

`dafny verify dfyconfig.toml` checks everything.

## How it is built

Each source file that updates static state is a class whose methods have the source's branches,
loops and index arithmetic (`HostEventLog.Log`, `TimingInbox.TimingLog`, `Framing.Deframer`,
`DumpVerifier.Verifier`, `DumpStream.Link`, `ExclusiveHost.ThrashRing`, `ClassA`, `Evictor`,
`ReconnectWatch.Ladder`, `Handoff.Radios`, `RadioTx.TxRadio`, `HidSummaries.Counts`). Each method
is tied to a function on a plain value, or to a full ghost history. Concurrency is then a state
machine whose steps are those functions, one step for each critical section, with every other step
free to come in between; what the source promises is an invariant of every run of that machine.

| file | models |
|---|---|
| `Common` | C integer ranges, circular index arithmetic |
| `JournalModel`, `HostEventLog` | the journal as a value, and the static state that implements it |
| `EventKinds` | the kinds of events, and which of them tell the selected profile and the endpoint |
| `JournalRuns` | recorders, writer, power cuts and restore in any interleaving |
| `RestoreOrder`, `UnreadSlots` | restoring does not depend on delivery order or slot layout; slots that cannot be read |
| `PersistSchedule` | the rate limit, and that no request is stranded |
| `TimingInbox`, `TimingRuns`, `WriteFeedback` | the inbox, its interleavings, and the write loop |
| `DumpText`, `DumpGrammar`, `Framing` | line formats and what the expressions match, both deframers |
| `DumpVerifier`, `DumpJudgement` | the completeness check, and which streams of lines it accepts |
| `DumpFields`, `DumpReadback` | what the printed details say, read back |
| `DumpStream`, `DumpEndToEnd`, `DumpReception` | the firmware's dump, and the way to the host's verdict |
| `ExclusiveHost` | sliding windows and the eviction storm bound |
| `ReconnectWatch`, `LadderRuns`, `LadderCourse` | the recovery ladder, all its runs, and how a whole climb goes |
| `Handoff`, `RadioTx`, `RadioContext` | handoff counters, radio transmit classification, and what it depends on in the history |
| `HidSummaries` | HID report summaries |

## Assumptions

- Sequence numbers, the journal sequence and the uptime stay below the wrap of their types; the
  clock never goes back. Counters that do wrap or saturate (16-bit HID totals, 16-bit handoff
  counters, 8-bit drop count) do so in the model.
- Sizes and limits are in the ranges of Kconfig: ring 32 to 1024, block 8 to 32, slots 4 to 8,
  eviction cap 1 to 16, and so on.
- The checksum is any function of the block's content. A torn slot fails validation, and a save is
  reported as successful only when the new block is in flash.
- In the runs of the journal a slot key is delivered at most once per boot (a later bad read does
  not clear the slot's validity, which `HostEventLog.Log.SettingsSet` states), and the newest block
  is among those read before the loaded hook runs. Older slots may be unreadable and come back;
  `UnreadSlots.TrueIffNewestRead` shows that the numbers need exactly this.
- The first save of a boot ends at an uptime above 0, the value that means "never"
  (`PersistSchedule.IntervalKeptUnlessEndedAtZero` says what happens otherwise).
- The save, drain and summary handlers share one work queue, so one ends before the next starts.
  Profile notifications and the ladder's and the eviction policy's handlers run on it too;
  Bluetooth callbacks do not.
- The console link's own encoder, which is not part of this repository, frames as `frame` does.

## Model

| member | source | states |
|---|---|---|
| HostEventLog.OrderedAppend | src/host_event_log.c:162-169 | writing at the head of the circular ring appends to its oldest-first content, or replaces the oldest event of a full ring |
| HostEventLog.Log.Record | src/host_event_log.c:162-177 | recording on the circular array is appending to the journal's ring, with number, save counter and urgent flag |
| HostEventLog.Log.RingGetOrdered | src/host_event_log.c:114-125 | the copy is the ring's content, oldest first, across the wrap |
| HostEventLog.Log.SchedulePersist | src/host_event_log.c:127-141 | the wait handed to the work queue, none before loading is done; what the waits amount to over runs is said by `PersistSchedule.OrdinaryWaitsUrgentDoesNot` |
| HostEventLog.Log.CopyBlock | src/host_event_log.c:204-256 | the block holds exactly the oldest unsaved events still in the ring, at most one block full, and would pass validation; or why nothing is written |
| HostEventLog.Log.CommitBlock | src/host_event_log.c:268-285 | success advances the saved tail, mirror and next slot; failure keeps them; either starts the interval; whether more is pending |
| HostEventLog.Log.SettingsSet | src/host_event_log.c:450-482 | for every key, length, read result and content: the exact return value; a value is delivered to the journal exactly if checksum, magic, version, slot, count and size are all right; a bad value changes nothing, except that for a slot that was valid already its content stays marked as valid |
| HostEventLog.SaveAndRestore | src/host_event_log.c:225-256 | the block that a save copies, delivered whole under the key of its slot to a journal at a later boot, is restored there exactly as it was copied |
| HostEventLog.KeysExactly | src/host_event_log.c:450-463 | the names that are a slot's key are exactly "dlog/" and the slot's digit, and only a whole block's length is read |
| HostEventLog.Log.SettingsLoaded | src/host_event_log.c:484-534 | early events are numbered after the saved tail once, and the reported uptime, profile and endpoint are those of the highest-numbered saved event of each kind |
| HostEventLog.Log.ScanRestored | src/host_event_log.c:494-523 | the slot-by-slot scan finds the highest-numbered event of each kind in any layout |
| EventKinds.ProfilesAreSelections | src/host_event_log.c:507-516 | for every kind the header numbers: the profile is restored exactly from events that hold a selection, the connection mapping apart |
| EventKinds.EndpointsAreTransports | src/host_event_log.c:517-521 | the endpoint is restored exactly from transport reports |
| JournalModel.BestIsLatest | src/host_event_log.c:501-521 | the running maximum over all slots is the highest-numbered saved event that satisfies the condition, if there is one |
| JournalRuns.StepKeeps | src/host_event_log.c:150-285 | every record, copy, flash write, commit, power cut, delivery and load step keeps the journal's invariant, in any interleaving |
| JournalRuns.JournalTellsHistory | src/host_event_log.c:219-279 | in every run: blocks round the slots from the next slot have increasing journal sequences and disjoint increasing ranges and hold exactly the events of their numbers, the ring holds the newest events in recording order, and only numbers the ring overwrote unsaved are missing |
| JournalRuns.CutWriteRestores | src/host_event_log.c:450-482 | a cut write restores the new block or every block but the one being overwritten, never a mix, for every delivery order |
| JournalRuns.EarlyEventsFollowTail | src/host_event_log.c:484-534 | in every run: the events recorded since the power came, up to the ring's size, get the numbers after the restored tail in recording order, and until the power goes nothing, a second load included, gives a number to another event |
| JournalRuns.BootedIsRecorded | src/host_event_log.c:150-177 | the events that the journal's runs account for since a restart are those recorded, in order |
| JournalRuns.NumbersStay | src/host_event_log.c:492-527 | once loading is done, every step keeps the event of every number until the power goes |
| JournalRuns.RestoredBlocksKeepNumbers | src/host_event_log.c:484-527 | over the end of loading every block in flash, also one that could not be read, keeps the events of its numbers |
| JournalRuns.InOrderPush | src/host_event_log.c:274-277 | overwriting the next slot with a newer block keeps the round order from the slot after it |
| JournalRuns.GuardsAreControlFlow | src/host_event_log.c:201-285 | in every reachable state the steps are enabled exactly as the control flow has it, so no run is left out |
| UnreadSlots.TrueIffNewestRead | src/host_event_log.c:461-481 | for a boot that has recorded nothing yet: the journal tells the history in every later run if and only if no unread slot holds a newer block than those read |
| UnreadSlots.ReadNewestStaysTrue | src/host_event_log.c:461-481 | with the newest block read, whatever older slots are unreadable and whatever was recorded, every later run keeps the journal true |
| UnreadSlots.UnreadNewestBreaks | src/host_event_log.c:461-481 | the run that goes wrong otherwise: numbers are given out again, and at the next boot the block is read |
| UnreadSlots.UnreadNewestReachable | src/host_event_log.c:461-481 | one save and a power cut reach such a boot |
| RestoreOrder.RestoreOrderIndependent | src/host_event_log.c:466-481 | for distinct journal sequences, any delivery order gives the same journal |
| RestoreOrder.PreviousStateLayoutIndependent | src/host_event_log.c:493-523 | the previous uptime, profile and endpoint depend on the saved events only, not on the slots that hold them |
| RestoreOrder.ReachableNumbersUnique | src/host_event_log.c:493-523 | in every run a saved number stands for one event, which the previous lemma asks for |
| PersistSchedule.SavesAreSpaced | src/host_event_log.c:127-148 | in every run, a save starts at least the interval after the previous one ended, whether it succeeded and whoever asked; no requested wait exceeds the interval |
| PersistSchedule.NoRequestStranded | src/host_event_log.c:162-285 | in every run after loading: with no save pending, running or about to be scheduled, only timing records are unsaved |
| PersistSchedule.PendingSaveComesDue | src/host_event_log.c:127-148 | in every run, no storm of requests puts a pending save off: until it starts it is overdue, or due within the interval after it was first asked for or after the last save, plus one hand-over delay |
| PersistSchedule.OrdinaryWaitsUrgentDoesNot | src/host_event_log.c:127-148 | in every run: a pending save that only ordinary requests have handed over is due an interval after the first of them, or at the end of the interval that ran; once an urgent one is handed over, at the end of the running interval, or at once if none runs |
| PersistSchedule.BootSavesAtOnce | src/host_event_log.c:528-533 | when loading ends with events unsaved in a boot that has not saved yet, the save is due at once |
| PersistSchedule.UrgentAsksCounted | src/host_event_log.c:170-182 | one in every so many events that ask for a save asks for an urgent one, whatever timing records come between |
| PersistSchedule.IntervalKeptUnlessEndedAtZero | src/host_event_log.c:211-217 | a save right after another is deferred if and only if the other did not end at uptime 0 and the interval is not over |
| TimingInbox.TimingLog.Capture | src/diagnostic_timing.c:50-60 | a capture joins the circular inbox's end, or is counted as dropped, saturating at 255 |
| TimingInbox.TimingLog.Pop | src/diagnostic_timing.c:29-43 | the oldest record leaves, or an empty inbox hands over and resets its drop count |
| TimingInbox.TimingLog.Drain | src/diagnostic_timing.c:26-47 | an undisturbed drain records everything in order with its own timestamps, then one overflow record |
| TimingRuns.TimingAccounted | src/diagnostic_timing.c:26-62 | in every interleaving of captures and drain: accepted = delivered + in flight + queued in capture order, each stretch of refused captures has exactly one overflow record, which carries their number up to 255, and a drain is on its way while anything waits |
| TimingRuns.CapturesConserved | src/diagnostic_timing.c:50-62 | every capture is accepted or refused, none twice |
| TimingRuns.QuietMeansDelivered | src/diagnostic_timing.c:26-62 | with no drain running, queued or about to be, everything accepted was delivered and everything refused was reported |
| WriteFeedback.SaveShrinksBacklog | src/host_event_log.c:258-285 | a successful save followed by its drain lowers the backlog by at least four or schedules no further save, whatever its timing records and the boot counter add |
| WriteFeedback.SaveSchedulesIffMoreThanABlock | src/host_event_log.c:219-285 | a successful save schedules another if and only if more than one block was waiting; its own timing records never do |
| WriteFeedback.WriteLoopDiesOut | docs/diagnostics.md:52-54 | with successful saves and nothing else recorded, saves stop after at most a quarter of the backlog, plus one |
| WriteFeedback.ReachableWellFormed | src/host_event_log.c:150-285 | every journal that a run reaches and that is ready meets what the two lemmas on the write loop ask of it |
| Framing.Frame | tools/read_diag_dump.py:19-26 | the loop computes the byte-stuffed encoding |
| Framing.Deframer.Feed | tools/read_diag_dump.py:35-58 | one chunk is its bytes in turn, with the size limit |
| Framing.FeedChunks | tools/read_diag_dump.py:115-116 | any split into chunks gives the payloads and state of one feed of the whole stream |
| Framing.FrameResynchronises | tools/read_diag_dump.py:35-58 | one whole frame leaves every reachable decoder idle, also after mid-frame overflow |
| Framing.FrameRoundTrip | tools/read_diag_dump.py:19-58 | an idle decoder gives a frame's payload back if and only if it has at most 512 bytes |
| Framing.FrameDeliveredIffNotEscaped | tools/read_diag_dump.py:35-58 | in every reachable state, mid-frame too, the next whole frame within the limit is delivered if and only if no escape was just read |
| Framing.FramesRoundTrip | tools/read_diag_dump.py:19-58 | any list of payloads within the limit decodes to exactly that list |
| Framing.FramesAfterNoise | tools/read_diag_dump.py:35-58 | after any bytes at all, every frame but the first is delivered |
| Framing.OpenDeframer.Frames | tools/totem_battery_windows.py:185-203 | the second decoder, byte by byte over its state dictionary |
| Framing.DecodersAgree | tools/totem_battery_windows.py:185-203 | the two decoders move in step over a stream if and only if no partial payload exceeds 512 bytes |
| Framing.SamePayloadsWithinLimit | tools/totem_battery_windows.py:185-203 | on such streams both return the same payloads |
| DumpText.BeginRoundTrip | tools/read_diag_dump.py:14 | the begin expression reads back exactly the six numbers of a printed begin line |
| DumpText.DataRoundTrip | tools/read_diag_dump.py:15 | the data expression reads back id, number and detail |
| DumpText.EndRoundTrip | tools/read_diag_dump.py:16 | the end expression reads back id and count |
| DumpText.KindsAreDisjoint | tools/read_diag_dump.py:14-16 | no line at all matches two of the expressions |
| DumpText.OtherSubsystem | tools/read_diag_dump.py:121 | lines of other subsystems match none of them |
| DumpGrammar.BeginExactly | tools/read_diag_dump.py:14 | the begin expression matches exactly the lines of its form, whatever digits stand for the numbers, and gives their values |
| DumpGrammar.DataExactly | tools/read_diag_dump.py:15 | the data expression matches exactly the lines of its form, a last newline left out of the detail |
| DumpGrammar.EndExactly | tools/read_diag_dump.py:16 | the end expression matches exactly the lines of its form |
| DumpVerifier.Verifier.Feed | tools/read_diag_dump.py:69-95 | what one line does to the verifier, for every line and state; what a begin line does to one that has seen others is said by `DumpJudgement.AcceptedFromBegin` |
| DumpVerifier.AcceptedIffWhole | tools/read_diag_dump.py:61-95 | of a dump's lines in order, some missing and unrelated ones between, the verifier accepts if and only if none is missing |
| DumpJudgement.AcceptsIffWhole | tools/read_diag_dump.py:61-128 | for every stream of lines at all: the program accepts if and only if the stream holds a whole dump, from a begin line with no later one before the end, its data lines numbered from 0 without a gap, before anything was decided |
| DumpJudgement.AcceptedFromBegin | tools/read_diag_dump.py:71-95 | from every verifier state: a dump that starts with its own begin line is accepted if and only if none of its lines is missing |
| DumpJudgement.LaterDumpAccepted | tools/read_diag_dump.py:61-128 | so it is after cut-off dumps and noise of any kind that decided nothing |
| DumpVerifier.OwnLine | tools/read_diag_dump.py:14-16 | every printed line of a dump is read as itself and as nothing else |
| DumpStream.EverySlotOnce | src/host_event_log.c:397-398 | going round from any start visits each slot exactly once |
| DumpStream.RotatedCount | src/host_event_log.c:381-415 | the rotated walk prints exactly the lines that the unrotated count announced |
| DumpStream.EventDetailFits | src/host_event_log.c:321-332 | no field values make an event detail reach 90 bytes |
| DumpStream.BlockDetailFits | src/host_event_log.c:403-407 | no field values make a block detail reach 90 bytes |
| DumpStream.DataLineFits | src/host_event_log.c:308-313 | a detail fits its line for every id and number if and only if it has at most 82 characters |
| DumpStream.BeginLineFits | src/host_event_log.c:388-393 | no values of the line's integer types make a begin line reach 120 bytes |
| DumpStream.EndLineFits | src/host_event_log.c:422-426 | no values of the line's integer types make an end line reach 120 bytes |
| DumpStream.DumpWellFormed | src/host_event_log.c:381-427 | the lines of a dump add up as blocks + persisted + ram, are numbered without gaps, and fit their buffers |
| DumpStream.Link.Send | src/host_event_log.c:291-306 | at most 40 attempts, repeated exactly while there is no room; the last answer is returned |
| DumpStream.DumpData | src/host_event_log.c:308-319 | one numbered line, refused with -EMSGSIZE and without an attempt exactly if it does not fit; the number advances only when the line was sent |
| DumpStream.DumpSlots | src/host_event_log.c:397-415 | the rotated loop sends the persisted lines in order, or a prefix up to the first failed send |
| DumpStream.PrintSnapshot | src/host_event_log.c:381-427 | the whole dump is sent, or a prefix up to the first failed send; the end line only after all data lines; what the lines say is said by `DumpReadback.DumpReadsBack` |
| DumpFields.EventReadsBack | src/host_event_log.c:321-332 | a reader gets source, slot, number and every field of an event back from its printed detail |
| DumpFields.BlockReadsBack | src/host_event_log.c:403-407 | and slot, journal sequence, first number and count from that of a block |
| DumpReadback.DumpReadsBack | src/host_event_log.c:381-421 | the lines of a dump read back as the saved blocks, each before its events, going round from the slot to be written next, and then the ring up to the newest number |
| DumpReadback.PersistedLinesExact | src/host_event_log.c:397-415 | an event is printed as persisted, with slot and number, if and only if it stands there under that number |
| DumpReadback.RamLinesExact | src/host_event_log.c:416-421 | an event is printed from RAM with a number if and only if it is the event of that number and still in the ring |
| DumpReadback.BlockLinesExact | src/host_event_log.c:403-409 | a block line is printed for each saved block and for nothing else |
| DumpReadback.BeginSays | src/host_event_log.c:381-396 | the begin line gives the numbers of saved blocks, saved events and ring events and the newest number |
| DumpEndToEnd.TakeSnapshot | src/host_event_log.c:373-379 | the snapshot is the journal's value at one moment |
| DumpEndToEnd.Dump | src/host_event_log.c:334-432 | what the link carries is the boot and fault lines and the dump of the journal as it is when these have been sent, whatever was recorded and saved meanwhile, or a prefix of it after a failed send |
| DumpEndToEnd.DumpConsistent | src/host_event_log.c:373-421 | in every run: what is copied from RAM is the newest of the events recorded since the restart, in order; once the journal is ready each has its true number, and an event that is both saved and in RAM is the same in both |
| DumpReadback.PrintedConsistent | src/host_event_log.c:373-421 | the same of the printed text: in every run, the lines of a dump read back with the number that each event was recorded under, RAM lines being the newest recorded events up to the newest number of all |
| DumpEndToEnd.ReachablePrintable | src/host_event_log.c:373-379 | in every run whose counters have not wrapped, the journal's snapshot meets what the dump theorems ask of it |
| DumpEndToEnd.ReadPort | tools/read_diag_dump.py:112-132 | for any chunks, the reading loop accepts exactly as the deframed whole stream is accepted |
| DumpEndToEnd.HostAcceptsIffWhole | tools/read_diag_dump.py:61-128 | through framing and any chunking, with lost and foreign frames, the program accepts if and only if every frame of the dump arrived |
| DumpEndToEnd.FirmwareDumpAcceptedIffWhole | src/host_event_log.c:308-428 | the same for every dump that the firmware prints, with no other condition on it |
| DumpReception.AcceptedIffAllSent | src/host_event_log.c:334-432 | for any chunks of the framed lines that were sent, boot and fault lines included, the program accepts if and only if the whole dump was sent |
| DumpReception.CutDumpUnfinished | src/host_event_log.c:394-413 | a dump cut off before its end line, after anything else that did, leaves the program waiting |
| DumpReception.LaterDumpAccepted | tools/read_diag_dump.py:112-128 | after any number of such dumps, framed and in any chunks, a later one is accepted if and only if all of it was sent |
| DumpReception.DumpAndRead | tools/read_diag_dump.py:112-132 | firmware and host as one: accepted if and only if every send succeeded |
| ExclusiveHost.ThrashRing.WinCount | src/exclusive_host.c:109-122 | the head-backward walk returns min(16, all evictions since the clear still in the window) |
| ExclusiveHost.ThrashRing.Note | src/exclusive_host.c:124-129 | the ring keeps the last 16 of the full history across the wrap |
| ExclusiveHost.ClassA.NoteAuthEvent | src/exclusive_host.c:142-177 | after a failure the count is min(3, all failures since a success within 60 s), and it is suspect exactly at 3 with fewer than 2 evictions in the window |
| ExclusiveHost.KeptNext | src/exclusive_host.c:148-166 | compacting and appending or shifting keeps exactly the failures that the next check needs |
| ExclusiveHost.FreshIsSuffix | src/exclusive_host.c:149-156 | dropping stale entries of rising times leaves a suffix of them |
| ExclusiveHost.Evictor.Drop | src/exclusive_host.c:222-315 | evicts exactly the known other host, with the active one linked, no USB and a disconnect that succeeds, for which, unless forced, the window is below the cap and no eviction of its profile is less than the ignore time ago; one more eviction keeps both bounds |
| ExclusiveHost.Evictor.ProfileChanged | src/exclusive_host.c:473-487 | only a changed index after the first notification is a switch, and a switch forgets the evictions, the ignore times and the failures, and nothing else does |
| ExclusiveHost.Operate | src/exclusive_host.c:317-335 | for every schedule of found connections and notifications, and whenever between check and note the disconnects took place: no closed window holds more than cap evictions over all hosts, and evictions of one profile are the ignore time apart |
| ExclusiveHost.StormBoundNext | src/exclusive_host.c:287-296 | a count below the cap (at most 16, so the ring suffices) leaves room for one more eviction |
| ExclusiveHost.StormBoundCounts | src/exclusive_host.c:287-308 | if the eviction cap before was out of the window when each was counted, any closed window holds at most cap disconnects, at all possible moments of them |
| ReconnectWatch.Ladder.WorkHandler | src/reconnect_watch.c:137-224 | the next step and timer for every answer of the environment, and every connection reference taken is given back |
| ReconnectWatch.Ladder.ScanHosts | src/reconnect_watch.c:73-93 | the scan finds the active match, counts the linked hosts and holds exactly its references |
| ReconnectWatch.ActiveMatchIsFirst | src/reconnect_watch.c:73-93 | the match is the first entry that is a connected peripheral link of the active profile, and there is none only if no entry is |
| ReconnectWatch.Ladder.DoArmFull | src/reconnect_watch.c:227-245 | a full arming, or a reset when USB, suppression, an open or a linked profile rules it out |
| ReconnectWatch.Ladder.DoArmLight | src/reconnect_watch.c:248-272 | a light arming only when nothing is armed |
| ReconnectWatch.Ladder.DoActiveDown | src/reconnect_watch.c:279-307 | the deferred arming re-checks at fire time |
| LadderRuns.PartsAreHandlers | src/reconnect_watch.c:137-318 | the handlers cut where they record and can block, the deferred arming included, are, uninterrupted, the handlers of the class |
| LadderRuns.StepKeeps | src/reconnect_watch.c:131-364 | every part of a handler, expiry, notification, arming request and reset in between keeps the ladder's order and deadlines |
| LadderRuns.ArmedIffPending | src/reconnect_watch.c:131-272 | in every run, between handlers: a step is armed if and only if its work is pending and was not submitted after a reset in mid-handler |
| LadderRuns.ArmedIffPendingIffNoMidReset | src/reconnect_watch.c:131-272 | over every schedule: armed and pending agree in all states between handlers if and only if no callback resets the ladder between the writing of a step and the submission of its work |
| LadderRuns.MidResetLeavesWork | src/reconnect_watch.c:236-244 | the run in which they do not: a host connects while its ladder is being armed |
| LadderRuns.StaleWorkStops | src/reconnect_watch.c:218-221 | over any run until the next arming, such leftover work fires at most once, arms nothing and starts no step |
| LadderRuns.LadderBounded | src/reconnect_watch.c:131-318 | in every run: at most three firings per arming, at steps 1, 2, 3 in order; idle within max(boost, step) + 2 step seconds plus handler lateness; a light ladder was not begun by a switch |
| LadderRuns.OnlySwitchRearms | src/reconnect_watch.c:248-318 | over any run, for as long as the ladder is not idle and no other index is selected, also while its handler runs: no light request, deferred arming, same-profile notification or link event arms it again, and nothing moves a running timer until it expires or is cancelled |
| LadderCourse.SwitchCourse | src/reconnect_watch.c:137-364 | selecting a host that stays away: re-advertise after the longer of boost and step time, evict and verify a step time apart each, then idle with nothing pending |
| LadderCourse.LightCourse | src/reconnect_watch.c:137-272 | a light request for such a host: the same three steps, the first after a step time |
| LadderCourse.DeferredIsLight | src/reconnect_watch.c:279-307 | the deferred arming does to the ladder what a light request does |
| LadderCourse.StopsWhenHostIsBack | src/reconnect_watch.c:137-364 | from every reachable state between handlers: an event that finds the host back leaves nothing armed, nothing pending and takes no step |
| Handoff.Radios.OnConnDone | src/handoff_diagnostics.c:234-276 | what one finished connection event does to the handle's entry, and to no other |
| Handoff.Radios.OnTxSetup | src/handoff_diagnostics.c:58-71 | a setup counts on its own handle only, while armed |
| Handoff.Radios.OnTxResult | src/handoff_diagnostics.c:73-92 | a result counts as completed or uncompleted on its own handle only, while armed |
| Handoff.Radios.OnDisconnectRequest | src/handoff_diagnostics.c:138-153 | arms exactly for a connected peripheral link to a host other than the selected one, with no USB power and a handle in range; arming clears everything but what is known of the last reception |
| Handoff.Radios.OnDisconnected | src/handoff_diagnostics.c:103-134 | the report is of the entry before it is cleared, and empty if it was not armed |
| Handoff.UnarmedIsSilent | src/handoff_diagnostics.c:58-134 | while unarmed nothing is counted, asked for or reported, whatever is observed |
| Handoff.CountersAreTrue | src/handoff_diagnostics.c:229-276 | after any observations since an arming, each of the twelve counters is min(true count, 65535) |
| Handoff.BadEventsDivide | src/handoff_diagnostics.c:248-255 | bad = aborted + no_rx + invalid_rx if and only if no event had a valid CRC without a received packet |
| Handoff.FirstBadOnce | src/handoff_diagnostics.c:267-273 | exactly one first-bad record per arming if some event was bad, for the first of them, and none otherwise |
| Handoff.TimesAreTrue | src/handoff_diagnostics.c:58-92 | the kept times are those of the first setup, the first and last completion and the last good reception, which an arming carries over |
| Handoff.ReportCarriesCounts | src/handoff_diagnostics.c:114-127 | the disconnect report carries each true count, in two bytes, under its stage |
| Handoff.ReportCarriesTimes | src/handoff_diagnostics.c:123-133 | the report carries the true times, and says which are known |
| RadioTx.TxRadio.OnIsrSet | src/handoff_radio_tx.c:43-71 | what a change of the radio's ISR resolves and which context it leaves |
| RadioTx.TxRadio.OnPktSet | src/handoff_radio_tx.c:87-98 | the pending setup is resolved before a new one is counted |
| RadioTx.TxRadio.OnCcmSet | src/handoff_radio_tx.c:75-83 | which packet was sealed last, and whether it was a termination of an armed context |
| RadioTx.SetupsResolvedOnce | src/handoff_radio_tx.c:32-106 | in every run each setup is resolved exactly once, on its own handle, before the next; one is open exactly while pending |
| RadioTx.ResolvedByEnd | src/handoff_radio_tx.c:32-40 | a pending setup waits for the first resolving hook and is then completed if and only if END was set at that moment |
| RadioTx.TransmissionsConserved | src/handoff_radio_tx.c:32-106 | from an arming on, counters are capped true counts, and setups = completed + uncompleted + pending if and only if nothing was pending on the handle when it was armed |
| RadioTx.ArmingWhilePending | src/handoff_diagnostics.c:148-152 | a run in which a handle is armed again while a setup on it is pending, where the balance is off by one |
| RadioTx.HandleObserves | src/handoff_diagnostics.c:58-92 | a handle's counters observe what happened on it and nothing else |
| RadioTx.SealIsKept | src/handoff_radio_tx.c:75-98 | pointer and flag name exactly the last sealed, unconsumed termination of the present connection |
| RadioContext.ContextIsLast | src/handoff_radio_tx.c:43-71 | in every run from power-up: the context is that of the last connection handler set since which no handler of another address was set, and the observer is inactive if there is none |
| RadioContext.ActiveIffWatched | src/handoff_radio_tx.c:52-71 | the observer is active exactly while the handlers in place are those of a connection that was an armed peripheral when they were set |
| RadioContext.SetupIffTermination | src/handoff_radio_tx.c:43-98 | by the history of hooks alone: a packet that is not NULL counts as a setup if and only if the observer is active and the packet is a termination in the clear, or the last sealed packet of an encrypted link, a termination not handed over before |
| RadioTx.SetupsAreSealed | src/handoff_radio_tx.c:87-97 | from every start, power-up included: no stale, consumed or foreign ciphertext pointer makes a setup, if and only if the packet is not NULL (or no handle has counters at all) |
| RadioTx.NullReplays | src/handoff_radio_tx.c:88-91 | the run from an arming on that shows it for NULL |
| HidSummaries.Counts.CountEvent | src/hid_report_diagnostics.c:60-72 | one observation counts in its own cell, mod 65536, and out-of-range profiles in none |
| HidSummaries.Counts.Flush | src/hid_report_diagnostics.c:31-57 | an undisturbed flush writes the records of every changed cell in order, clears all, and asks for a save if any changed |
| HidSummaries.AllUp | src/hid_report_diagnostics.c:77-87 | true exactly if no modifier and no key is held |
| HidSummaries.NothingLost | src/hid_report_diagnostics.c:31-75 | in every run with observations during flushes: records are exactly the summaries of consecutive stretches of observations, a cell is dirty if and only if some are unreported, and then a flush is pending, ahead or about to be scheduled |
| HidSummaries.CleanMeansReported | src/hid_report_diagnostics.c:31-75 | in every state of every run: the last emitted total of a cell that is not dirty and not just being written is its observation count mod 65536 |
| HidSummaries.QuietMeansReported | src/hid_report_diagnostics.c:31-75 | when no flush is pending, running or about to be scheduled, that is so for every cell |
| HidSummaries.FlushReportsAll | src/hid_report_diagnostics.c:31-57 | after every flush that no observation overlaps, this holds for all cells |
| HidSummaries.ErrorIsSeen | src/hid_report_diagnostics.c:47-50 | a summary carries an error if and only if one of its observations had one, and then the size of the last, up to 255 |
| HidSummaries.TurnsWrite | src/hid_report_diagnostics.c:31-52 | the loop of the runs, undisturbed, writes the records that `Flush` writes |
| HidSummaries.DeadlineKept | src/hid_report_diagnostics.c:73-74 | over any run, however many observations it holds, a pending flush keeps its deadline until it starts |

Where the documentation and the code differ, the model follows the code:

- docs/diagnostics.md:52-54 says that a flash write does not cause a chain of diagnostic-only
  writes. A save does schedule another one when more than a block of records was waiting, also if
  those are timing records only; `SaveSchedulesIffMoreThanABlock` says exactly when, and
  `WriteLoopDiesOut` how that chain ends.
- The comments at src/exclusive_host.c:220 and 274 describe a forced eviction on a profile switch.
  Every work handler passes `force=false` (lines 321-335), so `Operate` has no forced visits; `Drop`
  models the forced branch all the same.
- include/totem_host_event_log.h:75-77 says that event kind 29 holds the selected profile. Restoring the
  previous profile (src/host_event_log.c:509-512) does not look at that kind; `ProfilesAreSelections`
  says so.

## Left out

- HostEventLog.Log.RingGetOrdered: the dump lock is not modelled; dumps run one at a time.
- HostEventLog.Log.SettingsSet: the settings backend's prefix is fixed.
- PersistSchedule.SavesAreSpaced: saves of the same boot only, because the time of the last one is not stored.
- WriteFeedback.WriteLoopDiesOut: a save that fails is retried without end by design, so only successful saves are covered.
- DumpText.DataRoundTrip: the expressions' digits are ASCII; Unicode digits, which Python also accepts, do not occur in printed lines.
- DumpEndToEnd.ReadPort: the time limit is the end of the chunks, and the UTF-8 decoding is a parameter that keeps printable ASCII.
- DumpEndToEnd.Dump: the text of the boot and fault lines is a parameter, and what other threads do while they are sent is a list of whole critical sections.
- DumpReception.DumpAndRead: of that text it asks what the source's formats have, printable characters and another tag than the dump's own.
- JournalRuns.JournalTellsHistory: boots in which the newest block could not be read are left to `UnreadSlots`.
- UnreadSlots.TrueIffNewestRead: only for boots with nothing recorded yet in one direction, because early events that happen to equal the unread ones change nothing.
- ExclusiveHost.Operate: one work handler's visit of a connection is one step with several clock readings; notifications come between visits, and authentication events are left to `ClassA`.
- LadderRuns.LadderBounded: the lateness of a handler is a parameter; a reset is one step, and the settings commit, which only stores the index, is not a step of the runs.
- Handoff.Radios.OnConnDone: builds without link-layer encryption or connection metadata.
- Handoff.TimesAreTrue: times do not wrap.
- RadioTx.ResolvedByEnd: that the hardware event belongs to the packet in the air is not modelled; END is what the hook reads.
- RadioTx.SetupsResolvedOnce: connection objects keep one handle and are not NULL.
- Termination stages, parameters and timeouts of src/handoff_diagnostics.c:154-227: captured values with no state of their own.
- The HID hooks of src/hid_report_diagnostics.c:89-170: which counter each calls is one branch.
- Repeat coalescing, logging limits and printed text everywhere.
- src/totem_watchdog.c, src/totem_fault.c, src/boot_diagnostics.c beyond the counter save, the security observers, the USB and advertising helpers and the battery log: flags that one branch settles.
- The rest of tools/totem_battery_windows.py: alerts and Bluetooth.
- patches/zmk-ble.patch: not applied by the build.
