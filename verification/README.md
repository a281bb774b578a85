# Verification of the daemon/server delivery protocol

This project models the parts of North that must not lose, repeat or reorder work, and proves what
they promise:

- the daemon's **journal**: a durable command inbox and event outbox with sequence numbers, a bounded
  gap buffer, watermarks with sparse acknowledgements, compaction to identity tombstones, and
  recovery after a restart;
- the **coordinator** that composes the journal's operations into frames, reconciliation and recovery;
- the **server's delivery tables**: command outbox, event receipts and watermarks;
- the **clarification run**: attempts, retries, cancellation, and the transactions that move a run;
- the **runtime scheduler**: permits, a rotating queue, shared cancellation controls, suppression;
- the daemon's **main loop**, which drives journal and scheduler together;
- the **repository evidence** budget and file selection, and the web client's **conversation history**.

## How it is built

The journal appears at three levels. `DeliveryLedger` says what a journal means: every command and
event ever taken in, per session a processed boundary and a *set* of acknowledged sequences, nothing
ever compacted. `JournalFile`, `FileCommands` and `FileEvents` are the vectors, tombstones,
watermarks and loops of the source; each method is proved to carry out one ledger operation on the
ledger the file `Represents`. `Journal` is the object with its memory and its file on disk, each
operation of which is an operation of `DurableStore` on a pair of ledgers, whatever becomes of each
rewrite: it succeeds, or fails before or after the file was replaced, and the reload after a failure
may fail too. A restart reads the disk again.

The theorems are about the ledger and reach the stored form through these contracts:
`LedgerInvariants` (what every operation keeps), `Dispatch` (every run with failures and restarts),
`ArrivalOrder` (every order of arrival), `Compaction` (nobody can tell), `EndToEnd` (events: daemon,
network and server together), `CommandDelivery` (commands: the server's outbox, the network and a
daemon that may fail and restart) and `CommandCatchUp` (what sending commands again achieves). A ledger
holds one event for each id; what becomes of a journal in which two events share one is the subject of
`EventNames`, on the stored vectors, and of `NameClash` and `ClashOutcome`.

What an operation answers is stated once more without the functions that define it: `Answers` (the
journal), `CompletionReports` (what the end of a command reports), `Decisions` (receipts and
acknowledgements over every run), `SchedulerMoves` (the scheduler) and `LoopRecords` (what the main loop
leaves in the journal). The clarification run, the scheduler and the history are built
alike: a function for each operation, an object or method that is proved equal to it, and theorems
over every sequence of operations. `DaemonLoop` joins journal and scheduler in one step relation for
the daemon's main loop; `LoopSafety` proves over all its runs what each of the two expects of the
other, and `LoopQueue` when two commands of a session wait together.

Some expectations one may have of the source are false, and are settled exactly:

- The journal's event watermark is not always the longest acknowledged prefix. Two operations move it.
  After an acknowledgement it is the longest exactly when no event between the old watermark and the
  end of that prefix has been compacted (`FileEvents.WatermarkMaximalIff`). After a reconciliation,
  which takes the larger of two watermarks and goes no further, it is the longest exactly when neither
  sparse list goes on from there, whether or not anything was compacted (`FileEvents.MergeMaximalIff`).
  `FileEvents.WatermarkLags` and `FileEvents.MergeLags` start from one reachable journal and fall short
  in the one way and in the other.
- Recovery does not hand out every command that is ready. It leaves exactly the sessions described by
  `Coordination.PassedOver`, those that have no session entry yet and nothing started
  (`Coordination.RecoverForScheduler`), and there are such sessions
  (`Coordination.FreshCommandPassedOver`).
- A pass over the scheduler's queue does not always keep the order within a session. It does exactly
  when no session has a command that waits for its session in front of the first command that finds no
  permit, and another one at that place or behind it (`SchedulerOrder.OrderKeptIff`); a history of the
  scheduler that turns two commands round is given by `SchedulerOrder.OrderBreaks`. With the journal
  deciding what is admitted it cannot happen: every completion of every run of the main loop keeps the
  order (`LoopSafety.DrainKeepsOrder`).
- The queue may hold two commands of one session, even so: two cancellations, and nothing else
  (`LoopSafety.QueuedPerSession`). They come together exactly when a completion is handled whose session
  keeps a cancellation and goes on, the journal has another cancellation of it next, and the drain leaves
  no permit (`LoopQueue.QueuedApartUntil`); `LoopExamples.TwoCancelsQueued` is such a run of the main loop.
- Not every admitted cancellation is carried out. One is in hand or kept for later exactly when none
  of its session was kept before (`SchedulerRuns.CancellationDroppedIff`); a second one is dropped
  (`LoopExamples.SecondCancelDropped`), stays started in the journal, and blocks its session until the
  process ends (`LoopOutcomes.DroppedBlocks`) and the next one closes it (`LoopOutcomes.RestartCloses`).
- Commands of one history are not accepted in every order, however large the history. They are exactly
  when no session has more of them beyond its first than the gap limit
  (`ArrivalOrder.AcceptedInAnyOrderIff`).
- Sending all unacknowledged commands again does not always get them acknowledged, if nothing is finished
  meanwhile. It does exactly when no session has more than the gap limit beyond its next place
  (`CommandCatchUp.ResendingSufficesIff`). If each is finished in its turn, it always does
  (`CommandCatchUp.CatchingUp`).
- Event ids are not unique by themselves: an append looks whether its id is held, the end of a command
  does not look. As long as no append takes an id the journal may still form, no two events share one,
  over every course with failures and restarts (`NameClash.NamesApart`). The first append that does makes
  it possible, and only such a one: exactly when its id is `RuntimeEvent(c, k)` with `k >= 1`, or
  `UnknownEvent(c)`, of a command `c` that has not finished, known or not (`NameClash.SharedIff`). Both
  records then stay in the journal, and an acknowledgement of the second is refused as a conflict
  (`ClashOutcome.AppendCollides`). The server, once it has recorded the first, answers the second with an
  integrity error (`ClashOutcome.SecondRefused`), and its session never gets past it
  (`ClashOutcome.SessionStuck`).

`dafny verify dfyconfig.toml` checks the whole project.

## Model

| member | source | states |
|---|---|---|
| EventIds.DecimalInjective | crates/north-daemon/src/journal.rs:1241-1243 | The index printed into a runtime event id can be read back: equal texts come from equal numbers. |
| EventIds.RuntimeEventIdInjective | crates/north-daemon/src/journal.rs:1241-1243 | A runtime event id determines its command and its index, whatever hyphens the command id holds. |
| EventIds.UnknownEventIdInjective | crates/north-daemon/src/journal.rs:1262-1264 | The id of an unknown-outcome event determines its command. |
| EventIds.FamiliesApart | crates/north-daemon/src/journal.rs:1241-1264 | The two families of ids the journal makes itself never meet. |
| LedgerInvariants.BelowBoundaryConflicts | crates/north-daemon/src/journal.rs:1153-1157 | A new command below the processed boundary always meets an identity conflict first, so the branch for it never answers. |
| LedgerInvariants.PrepareKeeps | crates/north-daemon/src/journal.rs:1102-1177 | Intake keeps identities unique, the boundary the longest terminal prefix, work in order, and the gap bound. |
| LedgerInvariants.StartKeeps | crates/north-daemon/src/journal.rs:1191-1207 | Marking the next command, or a cancellation, as started keeps all of that. |
| LedgerInvariants.SettleKeeps | crates/north-daemon/src/journal.rs:1227-1240 | Closing a started command keeps it too and never moves a boundary back. |
| LedgerInvariants.OneInFlight | crates/north-daemon/src/journal.rs:541-592 | At most one command of a session that is not a cancellation is under way. |
| LedgerInvariants.AddKeeps | crates/north-daemon/src/journal.rs:803-826 | A fresh event with the next number keeps the numbering of each session exactly 1..n. |
| LedgerInvariants.AddAllKeeps | crates/north-daemon/src/journal.rs:1241-1284 | So does a run of fresh events, which takes exactly the next numbers. |
| LedgerInvariants.FinishKeeps | crates/north-daemon/src/journal.rs:1221-1287 | Finishing a started command whose event ids are free keeps every rule about commands and events and allocates as many numbers as it reports events. |
| LedgerInvariants.FinishContents | crates/north-daemon/src/journal.rs:1221-1287 | It gives the command the outcome reported and adds exactly the reported events, unacknowledged; every other command and event stays as it was. |
| CompletionReports.EmittedReports | crates/north-daemon/src/journal.rs:1241-1284 | The i-th further number of the session carries the i-th event of the runtime; an unknown outcome, and no other, is reported by one event more, the last: a failure that is not recoverable, that the server recognises as of unknown outcome, and that gives the reason. |
| CompletionReports.UnknownNeverRetried | crates/north-persistence/src/clarification.rs:1158-1200 | That last event, if the server accepts it, ends the run, and no later operation starts an attempt. |
| LedgerInvariants.AppendKeeps | crates/north-daemon/src/journal.rs:746-828 | An append keeps identities and numbering whatever its id; the ids the journal may still form stay free if and only if it takes none of them. |
| LedgerInvariants.AcknowledgeEffect | crates/north-daemon/src/journal.rs:888-953 | An acknowledgement adds exactly its own, allocated, sequence to the acknowledged set of its session and touches nothing else. |
| LedgerInvariants.AcknowledgeKeeps | crates/north-daemon/src/journal.rs:888-953 | An acknowledgement keeps event identities, noted statuses and the origin of events. |
| LedgerInvariants.AcknowledgeNumbered | crates/north-daemon/src/journal.rs:888-953 | It keeps the numbering 1..n and does not change the next number. |
| LedgerInvariants.ReconcileIsUnion | crates/north-daemon/src/journal.rs:955-989 | Reconciliation is set union with what the snapshot acknowledges, session by session, and moves nothing else. |
| LedgerInvariants.ReconcileKeeps | crates/north-daemon/src/journal.rs:955-989 | Reconciliation keeps event identities, noted statuses and the origin of events, whatever the snapshot says. |
| LedgerInvariants.ReconcileNumbered | crates/north-daemon/src/journal.rs:1519-1549 | A snapshot that acknowledges only allocated sequences keeps the numbering and the next number. |
| LedgerInvariants.ReplayUnique | crates/north-daemon/src/journal.rs:991-1018 | Being in rising order and holding exactly the owed events determines a replay. |
| Answers.IntakeAnswers | crates/north-daemon/src/journal.rs:1102-1177 | A valid command is taken in if and only if no other held command has its id, place or message and, if it is new and beyond the next place, the buffer of its session has room; a clash is told first, an overflow otherwise; what is held stays as it is. |
| Answers.AcceptanceAnswers | crates/north-daemon/src/journal.rs:529-583 | What accepting a frame answers in every case, and that the command is handed out exactly when it is not begun and is next, or is a cancellation on the control path with an earlier command started. |
| Answers.AppendAnswers | crates/north-daemon/src/journal.rs:746-828 | An append under a held id is a repeat if session and event agree and a conflict otherwise; under a free id it takes the next number, if the event is valid. |
| Answers.AcknowledgeAnswers | crates/north-daemon/src/journal.rs:888-953 | An acknowledgement is taken if and only if it is valid, its event is held at its session and number, and no other status was noted. |
| Answers.AcknowledgeAgain | crates/north-daemon/src/journal.rs:926-937 | The same acknowledgement again is taken and changes nothing; the other status is a conflict. |
| Answers.AckFrameAgain | crates/north-daemon/src/coordination.rs:134-145 | So it is for frames, with a compaction in between, and however the rewrites of the second frame end. |
| Answers.ReconcileServerAck | crates/north-daemon/src/journal.rs:955-989 | Reconciliation keeps the larger of the two views of how far commands are acknowledged, for each session listed. |
| Dispatch.AcceptHandsOut | crates/north-daemon/src/journal.rs:529-583 | A command is handed out only when its start is in memory and on disk, it was not begun before, and it is the next of its session or a cancellation with an earlier command started. |
| Dispatch.NextHandsOut | crates/north-daemon/src/journal.rs:594-613 | A released command is handed out under the same rule, and is always the next of its session. |
| Dispatch.FrameHandsOut | crates/north-daemon/src/journal.rs:529-583 | With rewrites that succeed, a valid frame adds its command to what was handed out exactly when it is taken in and may run. |
| Dispatch.RunSound | crates/north-daemon/src/journal.rs:1307-1349 | Over every run with redelivery, failed rewrites and restarts: the rules hold in memory and on disk, and whatever was handed out is remembered as begun in both. |
| Dispatch.AtMostOnce | crates/north-daemon/src/journal.rs:529-583 | Over every such run no command id crosses the runtime boundary twice. |
| Dispatch.DispatchInSequence | crates/north-daemon/src/journal.rs:1137-1158 | Over every such run the work of a session, cancellations aside, crosses in the order of its sequence, across restarts too. |
| Dispatch.CallersSupplyStarted | crates/north-daemon/src/journal.rs:1227-1239 | Every completion of this process's own work finds its command started, which finishing does not check. |
| Dispatch.HandOutRule | crates/north-daemon/src/journal.rs:1137-1158 | Two commands in flight in one session, neither a cancellation, are one command, the next of the session; what waits beyond it stays within the gap limit. |
| ArrivalOrder.DispatchIsLongestPrefix | crates/north-daemon/src/coordination.rs:251-267 | For any frames in any order with any repetition, the dispatch log of a session is 1, 2, .., k, with k the longest gap-free prefix of what was accepted, and nothing ready is left waiting. |
| ArrivalOrder.OrderIrrelevant | crates/north-daemon/src/coordination.rs:251-267 | Two histories that accepted the same commands of a session dispatched them in the same order. |
| ArrivalOrder.AllAccepted | crates/north-daemon/src/journal.rs:1102-1177 | Frames of one genuine history, each repeated any number of times and of any number of sessions, are all accepted, and nothing else is, when no session has more of them beyond its first than the gap limit. |
| ArrivalOrder.AcceptedInAnyOrderIff | crates/north-daemon/src/journal.rs:1136-1152 | That bound is exact: every part of a genuine history is accepted in every order and with any repetition if and only if it holds. |
| ArrivalOrder.SameWorkAnyOrder | crates/north-daemon/src/coordination.rs:251-267 | Hence two deliveries of the same genuine commands, in any order and with any repetition, cause the same work in the same order. |
| FileCommands.ValidateCommandIdentity | crates/north-daemon/src/journal.rs:1379-1431 | The check over records and tombstones refuses an envelope exactly when the full history holds a different envelope with its id, place or message. |
| FileCommands.PrepareCommand | crates/north-daemon/src/journal.rs:1102-1177 | Intake on the stored vectors answers as the full history does: the same error, duplicate, buffering, acknowledgement and status, and a file that stands for the same new history. |
| FileCommands.HasPriorDispatchStarted | crates/north-daemon/src/journal.rs:585-592 | Found exactly when an earlier command of the session is started in the full history. |
| FileCommands.MarkDispatchStarted | crates/north-daemon/src/journal.rs:1191-1207 | A received command becomes started; any other state is left alone and reported; a missing record is an error. |
| FileCommands.AdvanceProcessed | crates/north-daemon/src/journal.rs:1486-1500 | The loop over the retained records ends at the longest terminal prefix of the full history. |
| FileCommands.SettleCommand | crates/north-daemon/src/journal.rs:1227-1240 | Closing a record and moving the boundary stands for closing the command in the history. |
| FileCommands.CompactCommands | crates/north-daemon/src/journal.rs:1036-1064 | Exactly the finished records of the session up to the boundary leave the list, which keeps its order, and go, in order, to tombstones. |
| FileCommands.CompactionKeepsCommands | crates/north-daemon/src/journal.rs:1036-1064 | The moved records stand for the same commands: no identity, digest or outcome is lost. |
| FileCommands.HeldExactlyOnce | crates/north-daemon/src/journal.rs:1036-1064 | Each place up to the boundary is held exactly once, by a terminal record or a tombstone, and no tombstone lies above it. |
| FileCommands.StartedEnvelopes | crates/north-daemon/src/journal.rs:650-658 | The commands recovery asks about are exactly the started records, each once. |
| EventCursor.CursorUnique | crates/north-persistence/src/delivery.rs:388-429 | A set of acknowledged sequences has only one tight (watermark, sparse) form. |
| EventCursor.ExpectedSequence | crates/north-persistence/src/delivery.rs:296-315 | The guard's loop finds the first sequence above the watermark that is not yet handled. |
| EventCursor.AdvanceGeneric | crates/north-persistence/src/delivery.rs:388-429 | Under its gap guard the ledger's watermark update adds exactly the new sequence to the set, and leaves a tight cursor. |
| EventCursor.AdvanceProjection | crates/north-persistence/src/clarification.rs:1822-1861 | The projection's update adds exactly a sequence above the watermark and ignores any other; a tight cursor stays tight. |
| EventCursor.VersionsAgree | crates/north-persistence/src/clarification.rs:1822-1861 | Under the gap guard the two updates produce the same cursor. |
| FileEvents.NextEventSequence | crates/north-daemon/src/journal.rs:1519-1549 | The number is one past the highest of watermark, sparse list, records and tombstones, in any file. |
| FileEvents.StoredLastIs | crates/north-daemon/src/journal.rs:1519-1549 | In a file that stands for a history, that is one past the highest sequence ever allocated or acknowledged. |
| FileEvents.EmitEvents | crates/north-daemon/src/journal.rs:1241-1284 | The events of one completion are pushed behind those held, in the runtime's order, with consecutive numbers and the journal's own ids, whether or not an id is held already; an unknown outcome adds one last event that tells so, and no other outcome adds any. |
| FileEvents.FinishCommand | crates/north-daemon/src/journal.rs:1221-1287 | One update closes the command, moves the boundary and pushes the events it reports, each runtime event under its number and the unknown outcome last; if none of their ids is held, the new file stands for the history after the end of the command. |
| FileEvents.ValidateEventIdentity | crates/north-daemon/src/journal.rs:1433-1476 | The check over records and tombstones refuses an event exactly when the full history conflicts with it. |
| FileEvents.AppendEvent | crates/north-daemon/src/journal.rs:746-828 | Appending on the stored vectors answers as the full history does; only an event whose payload is gone is described with a fresh time. |
| FileEvents.AdvanceEventAck | crates/north-daemon/src/journal.rs:1502-1517 | The watermark moves past every retained acknowledged event that follows and stops before the first other sequence; the set it stands for with the sparse list is unchanged. |
| FileEvents.NoteAck | crates/north-daemon/src/journal.rs:941-950 | Pushing a sequence, sorting and advancing adds exactly that sequence to the set. |
| FileEvents.AcknowledgeEvent | crates/north-daemon/src/journal.rs:888-953 | A retained or buried event is acknowledged exactly when the acknowledgement is valid, names its session and number, and no other status was noted; otherwise it is an error of the kind due; the new file stands for the new history. One that names an id first held at another place is a conflict, in any file. |
| FileEvents.MergeCursor | crates/north-daemon/src/journal.rs:963-975 | Maximum of the watermarks, merge, sort and cut make a cursor of exactly the union, with the larger of the two as its watermark. |
| FileEvents.ApplyReconciliation | crates/north-daemon/src/journal.rs:955-989 | Applying a snapshot to cursors and records stands for reconciling the history; a retained event is marked acknowledged if and only if it is in the set. |
| FileEvents.ReplayEvents | crates/north-daemon/src/journal.rs:991-1018 | The replay is exactly the events of the full history that are owed, in strictly rising order. |
| FileEvents.CompactEvents | crates/north-daemon/src/journal.rs:1065-1093 | Exactly the acknowledged events of the session leave the list, which keeps its order, and go, in order, to tombstones. |
| FileEvents.CompactionKeepsEvents | crates/north-daemon/src/journal.rs:1065-1093 | The moved events stand for the same history; only events the server has acknowledged lose their payload. |
| FileEvents.WatermarkMaximalIff | crates/north-daemon/src/journal.rs:1502-1517 | The watermark reaches the longest acknowledged prefix if and only if no event from the old watermark to the end of that prefix is a tombstone; it never exceeds it. |
| FileEvents.LaggingIsReached | crates/north-daemon/src/journal.rs:1076-1093 | Two appends and one acknowledgement lead to the history of the counterexample. |
| FileEvents.UncompactedRepresented | crates/north-daemon/src/journal.rs:888-953 | The file with both events on record, the second acknowledged, stands for that history. |
| FileEvents.LaggingCompacted | crates/north-daemon/src/journal.rs:1065-1093 | Compacting the session turns that file into the one the counterexample uses. |
| FileEvents.LaggingRepresented | crates/north-daemon/src/journal.rs:1076-1093 | Which stands for the same history. |
| FileEvents.WatermarkLags | crates/north-daemon/src/journal.rs:1502-1517 | There, acknowledging event 1 completes the prefix 1, 2 but leaves the watermark at 1. |
| FileEvents.MergeMaximalIff | crates/north-daemon/src/journal.rs:963-975 | The watermark a merge leaves is the longest acknowledged prefix if and only if the number after it is in neither sparse list. |
| FileEvents.MergeLags | crates/north-daemon/src/journal.rs:955-989 | In the journal before its compaction, a valid snapshot that acknowledges event 1 completes the prefix 1, 2 and leaves the watermark at 1, with no tombstone anywhere. |
| EventNames.RepresentedOnce | crates/north-daemon/src/journal.rs:746-828 | A file that stands for a history holds the id of each of its events once, as a record or a tombstone, and no other. |
| EventNames.PushShares | crates/north-daemon/src/journal.rs:1241-1260 | Pushing an event under an id that is held leaves two events with one id. |
| EventNames.CompactionKeepsNames | crates/north-daemon/src/journal.rs:1065-1093 | Compaction moves ids from records to tombstones and neither drops nor adds one. |
| NameClash.NamesApart | crates/north-daemon/src/journal.rs:746-828 | Over every course of intake, starts, ends, appends, failed rewrites and restarts in which no append anticipates an id, no two events share one, in memory or on disk. |
| NameClash.Startup | crates/north-daemon/src/journal.rs:541-592 | Any command that has not finished, known to the journal or not, can come to be started. |
| NameClash.Collides | crates/north-daemon/src/journal.rs:1241-1264 | An id held that anticipates one of a command is taken again in some continuation without further appends. |
| NameClash.SharedIff | crates/north-daemon/src/journal.rs:1241-1264 | After any course without anticipated ids: appending an id makes it possible that two events come to share one, if and only if it is `RuntimeEvent(c, k)` with `k >= 1`, or `UnknownEvent(c)`, of a command that has not finished. |
| NameClash.AcceptIs | crates/north-daemon/src/journal.rs:529-583 | Accepting a frame is, of the steps of such a course, an intake and a start. |
| NameClash.FormedIs | crates/north-daemon/src/journal.rs:1241-1264 | The ids a course forms at the end of a command are those of the events the journal emits. |
| ClashOutcome.TwoRecords | crates/north-daemon/src/journal.rs:1241-1256 | The appended event keeps its record, the event of the command gets another with the same id, and every acknowledgement of the second is refused. |
| ClashOutcome.AppendCollides | crates/north-daemon/src/journal.rs:746-828 | So it goes for every command under way when its first event id was appended before: the end of the command leaves both, at two places. |
| ClashOutcome.SecondRefused | crates/north-persistence/src/delivery.rs:255-332 | Once the server has recorded the first, the second is an integrity error and changes nothing. |
| ClashOutcome.SessionStuck | crates/north-persistence/src/delivery.rs:296-332 | From then on its session stays below the number of the second, whatever is delivered, in whatever order and however often. |
| Compaction.Compact | crates/north-daemon/src/journal.rs:1036-1100 | Compaction of a session leaves a file for the same history, with nothing finished up to the boundary and nothing acknowledged left on record. |
| Compaction.SameNames | crates/north-daemon/src/journal.rs:1036-1100 | Compaction keeps every event id as often as it was held, in any file. |
| Compaction.IntakeUnaffected | crates/north-daemon/src/journal.rs:1379-1431 | Every command envelope gets the same answer before and after compaction of any session. |
| Compaction.AppendUnaffected | crates/north-daemon/src/journal.rs:746-802 | So does every event append, up to the time printed on a known event whose payload is gone. |
| Compaction.AckUnaffected | crates/north-daemon/src/journal.rs:888-941 | So does every event acknowledgement. |
| Compaction.ReplayUnaffected | crates/north-daemon/src/journal.rs:991-1018 | And the replay owed to any server state is the same sequence. |
| Journal.Journal.constructor | crates/north-daemon/src/journal.rs:400-454 | A journal opened where no file exists stands for the empty history. |
| Journal.Journal.Restart | crates/north-daemon/src/journal.rs:400-454 | A restart continues from what the disk holds. |
| Journal.Journal.Persisting | crates/north-daemon/src/journal.rs:1307-1349 | An update is on disk and in memory, or memory is what the disk holds, or, if the file cannot be read, what it was before. |
| Journal.Journal.AcceptCommand | crates/north-daemon/src/journal.rs:529-583 | Intake and hand-out with their two rewrites do exactly what `DurableStore.Accept` says, for every combination of failures. |
| Journal.Journal.AcceptNextReady | crates/north-daemon/src/journal.rs:594-613 | The received record that fills the next place, if any, is accepted. |
| Journal.Journal.FindReady | crates/north-daemon/src/journal.rs:598-608 | It is found exactly when the history has one. |
| Journal.Journal.StartedRecords | crates/north-daemon/src/journal.rs:650-658 | The started records are exactly the started commands of the history. |
| Journal.Journal.CompactSession | crates/north-daemon/src/journal.rs:1036-1100 | Compacting changes no history, in memory or on disk, however the rewrite ends. |
| Journal.Journal.CompleteCommand | crates/north-daemon/src/journal.rs:1209-1219 | Closing a command and compacting does what `DurableStore.Complete` says, unless an id it forms is held; then two events share an id wherever the finished file was written. In both cases it succeeds exactly when both rewrites do, and then returns the events of the runtime in order, with the unknown outcome last. |
| Journal.Journal.AppendEvent | crates/north-daemon/src/journal.rs:746-828 | Appending, under whatever id, persists as the history demands and tells the caller its answer; the ids the journal may still form stay free unless it takes one. |
| Journal.Journal.AcknowledgeEvent | crates/north-daemon/src/coordination.rs:134-141 | An acknowledgement frame is taken exactly when its event is held there with no other status and the rewrites succeed; it is then noted and its session compacted, as `DurableStore.AckEvent` says. |
| Journal.Journal.ApplyReconciliation | crates/north-daemon/src/journal.rs:955-989 | A valid snapshot is taken over in one rewrite, an invalid one refused. |
| Journal.Journal.ReplayEvents | crates/north-daemon/src/journal.rs:991-1018 | A valid state gets exactly the events of its session that neither it nor the journal counts as acknowledged, in rising order. |
| Coordination.ProcessCommand | crates/north-daemon/src/journal.rs:480-512 | Accept, run, finish and compact is the step `ArrivalOrder.Process`. |
| Coordination.ProcessReady | crates/north-daemon/src/journal.rs:615-642 | The loop terminates with nothing of the session ready, having done `ArrivalOrder.Drain`. |
| Coordination.ProcessFrame | crates/north-daemon/src/coordination.rs:251-267 | One frame through the journal object is the step `ArrivalOrder.Feed`, so the arrival-order theorems hold for it. |
| Coordination.ReconcileAndReplay | crates/north-daemon/src/coordination.rs:96-111 | After the snapshot is taken over, each listed session is replayed exactly what it is still owed. |
| Coordination.CloseStarted | crates/north-daemon/src/journal.rs:646-684 | Recovery closes every started command and changes no other: as dispatched, as failed with the reason, or as of unknown outcome, by what the runtime answers; each unknown end adds one event that reports it, and no other event is added. |
| Coordination.ResumeSessions | crates/north-daemon/src/journal.rs:685-692 | Every session with an entry has its ready command handed out. |
| Coordination.RecoverForScheduler | crates/north-daemon/src/journal.rs:646-694 | What recovery hands out was never begun; what is started afterwards is exactly that; a session keeps a ready command if and only if it is passed over; and what was started has ended and is reported as the runtime answered. |
| Coordination.FreshCommandPassedOver | crates/north-daemon/src/journal.rs:1551-1554 | A first command that was received and not started is passed over, and its redelivery hands it out. |
| ServerEvents.EventStore.RecordEvent | crates/north-persistence/src/delivery.rs:192-343 | The receipt transaction on watermark and sparse list is `ServerEvents.Record` on the set of handled sequences; a fresh receipt holds the decision given, a repeat is answered with the receipt of the first recording, and nothing else is stored. |
| Delivery.RecordEffect | crates/north-persistence/src/delivery.rs:255-332 | A fresh receipt holds the decision given, is for the next sequence of its session and changes nothing else; a repeat gets the first receipt, whatever is decided now; every answer but a fresh one changes nothing. |
| Delivery.RecordAnswers | crates/north-persistence/src/delivery.rs:192-343 | Which answer an event frame gets: fresh exactly for a new id at the next sequence, a repeat exactly for the recorded envelope, a gap beyond the next sequence with both numbers. |
| Decisions.RecordedOnce | crates/north-persistence/src/delivery.rs:255-332 | Over every run an event is recorded at one step only. |
| Decisions.AcksCarryDecision | crates/north-persistence/src/delivery.rs:316-341 | Over every run each acknowledgement on the network, also of a repeated frame, carries the decision taken when its event was recorded. |
| Decisions.AcksAreTaken | crates/north-daemon/src/journal.rs:888-953 | Over every run the daemon refuses no acknowledgement that is on the network, however late and however often it comes, and notes the status the server decided. |
| EndToEnd.DaemonKeeps | crates/north-daemon/src/journal.rs:1307-1349 | Every journal operation, restart included, keeps memory and disk in agreement with the server. |
| EndToEnd.StepKeeps | crates/north-persistence/src/delivery.rs:255-332 | So does every step of the network and the server. |
| EndToEnd.RunSafe | crates/north-daemon/src/coordination.rs:96-156 | The agreement holds over every run of daemon, network and server. |
| EndToEnd.RecordedInOrder | crates/north-persistence/src/delivery.rs:255-332 | Under loss, repetition, reordering, crashes and reconnects: what the server records of a session is 1, 2, .., m, each once, each an event the daemon allocated, and m <= n, the daemon's last number. |
| EndToEnd.BuriedIsRecorded | crates/north-daemon/src/journal.rs:1065-1093 | Every event whose payload left the journal, in memory or on disk, was recorded by the server with that payload. |
| EndToEnd.ReplayIsMissing | crates/north-daemon/src/journal.rs:991-1018 | The replay owed to a current snapshot is exactly the events m+1, .., n. |
| EndToEnd.ReplayCatchesUp | crates/north-persistence/src/delivery.rs:255-332 | Delivered in order, such events are all recorded, whatever is decided about each. |
| EndToEnd.OneSession | crates/north-daemon/src/journal.rs:991-1018 | Sending and receiving the replay of one session, event by event, brings the server level with the daemon there and leaves every other session alone. |
| EndToEnd.OneReplaySuffices | crates/north-daemon/src/coordination.rs:96-111 | From any reachable state: the server's report on any of its sessions, its reconciliation and the ordered replay of each, as steps of the run, leave the server with every event the daemon ever allocated in those sessions. |
| ServerOutbox.WatermarkIsPrefix | crates/north-persistence/src/delivery.rs:437-478 | The watermark computed by a minimum and a maximum over the rows left is the longest acknowledged prefix of all commands ever allocated. |
| ServerOutbox.PartitionOfSequences | crates/north-persistence/src/delivery.rs:345-386 | Rows and tombstones partition 1..N: each allocated sequence is held by exactly one command, in one of the tables. |
| ServerOutbox.LastAllocated | crates/north-persistence/src/daemon.rs:780-793 | The greatest of rows, tombstones and watermark is the last sequence ever allocated, so none is used again. |
| ServerOutbox.AdvanceWatermark | crates/north-persistence/src/delivery.rs:437-478 | Marking a row and recomputing the watermark keeps every table rule, the watermark rule among them. |
| ServerOutbox.Outbox.StartCommand | crates/north-persistence/src/daemon.rs:623-848 | A new id gets the next sequence; a known one its own command again if it asks for the same, with its payload unless compacted, and an error if not; a message of another command is refused. |
| ServerOutbox.Outbox.AcknowledgeCommand | crates/north-persistence/src/delivery.rs:59-140 | Answers exactly for the sequence the id was allocated, reports the longest acknowledged prefix, moves what it covers to tombstones, and touches no other unacknowledged row. |
| ServerOutbox.Outbox.CompactCommands | crates/north-persistence/src/delivery.rs:345-386 | Exactly the acknowledged rows up to the watermark are moved; the history is unchanged. |
| ServerOutbox.Outbox.UnacknowledgedCommands | crates/north-persistence/src/delivery.rs:142-159 | The commands to send again are exactly those of the history that are not acknowledged, each as first sent, by session and sequence. |
| ServerOutbox.CompactionSplits | crates/north-persistence/src/delivery.rs:345-386 | After the move the tables still split the same history. |
| CommandDelivery.TablesAreGenuine | crates/north-persistence/src/daemon.rs:780-830 | Whatever the outbox tables stand for, no two of its commands share an id, a place in a session, or a message. |
| CommandDelivery.ReachSafe | crates/north-daemon/src/coordination.rs:113-141 | Over every run of outbox, network and daemon with failures and restarts: the journal and the network hold only commands of the outbox, and what is acknowledged the daemon holds in memory and on disk. |
| CommandDelivery.FramesNeverConflict | crates/north-daemon/src/journal.rs:1379-1431 | No two frames ever sent claim one identity, none conflicts with the journal, and a valid one is refused only when the gap buffer is full. |
| CommandDelivery.NothingLost | crates/north-persistence/src/delivery.rs:59-140 | A command ever allocated is still a row to be sent, or is in the daemon's journal in memory and on disk. |
| CommandDelivery.DispatchedOnceInSequence | crates/north-daemon/src/journal.rs:529-583 | What is dispatched over such a run are commands of the outbox, each once, the work of a session in the order of its sequence. |
| CommandDelivery.RunsDispatchAlike | crates/north-daemon/src/main.rs:352-370 | Any two such runs dispatch the work they have in common in the same order. |
| CommandDelivery.FramesDispatchAlike | crates/north-daemon/src/coordination.rs:251-267 | On the synchronous path, within the gap limit, all frames of a run are accepted, and any two deliveries of them dispatch a session's commands in the same order. |
| CommandCatchUp.FittingIsTaken | crates/north-daemon/src/journal.rs:1136-1152 | While no session has more than the gap limit beyond its next place, every command of the outbox is taken in. |
| CommandCatchUp.ResendingSufficesIff | crates/north-server/src/daemon.rs:596-630 | From any reachable state: sending every unacknowledged command again, in any order, gets all acknowledged, and so held in memory and on disk, if and only if no session has more than the gap limit beyond its next place. |
| CommandCatchUp.TurnOne | crates/north-daemon/src/coordination.rs:251-267 | The command whose turn it is, sent again unless acknowledged, handed out and finished, is acknowledged and its boundary reaches it. |
| CommandCatchUp.CatchingUp | crates/north-server/src/daemon.rs:562-630 | From any reachable state: the snapshot, then every command that is not done sent in order and finished as it comes, leave every command ever allocated acknowledged, held in memory and on disk and finished, and every boundary at the last sequence of its session, without any gap limit. |
| Clarification.NewRunLifecycle | crates/north-persistence/src/clarification.rs:523-606 | A created run satisfies the lifecycle rules, with or without a daemon. |
| Clarification.ApplyLifecycle | crates/north-persistence/src/clarification.rs:1026-1252 | Assigning, cancelling, projecting an event and claiming a retry keep them: an attempt is open exactly in an assigned idle or a running run, and so on. |
| Clarification.ProjectionSucceeds | crates/north-persistence/src/clarification.rs:1136-1156 | An event that is not refused always finds the open attempt it needs: the projection errors are unreachable. |
| Clarification.ViewExistsIff | crates/north-persistence/src/clarification.rs:250-301 | A view is missing exactly for a running or retrying run without a daemon; no reachable run is one. |
| Clarification.ViewTells | crates/north-persistence/src/clarification.rs:250-301 | What phase and status a view shows, by state, daemon, connection and runtime. |
| Clarification.NewRunBegins | crates/north-persistence/src/clarification.rs:523-606 | A new run has its first attempt under way exactly when a daemon was found, and three attempts in all. |
| Clarification.AssignAssigns | crates/north-persistence/src/clarification.rs:364-430 | A repeated start gives a waiting run its daemon and first attempt, and changes no other run. |
| Clarification.CancelStops | crates/north-persistence/src/clarification.rs:772-880 | A cancellation marks a live run and ends it at once exactly when no attempt is open. |
| Clarification.RejectionByState | crates/north-persistence/src/clarification.rs:1026-1060 | By its state alone: which events a run takes, and the reason given for each it does not. |
| Clarification.ProjectionBecomes | crates/north-persistence/src/clarification.rs:1060-1252 | What an event that is taken makes of a run. After a failure it is retried, at the time given, if and only if it is not cancelled, the reason does not tell an unknown outcome, its owner is registered and attempts are left; what the failure is called follows the first of these that fails. |
| Clarification.ClaimRetries | crates/north-persistence/src/clarification.rs:1313-1417 | A due run starts its next attempt if and only if its owner is registered, and ends otherwise. |
| Clarification.ChangeDescends | crates/north-persistence/src/clarification.rs:936-1278 | Every operation that changes a run lowers a well-founded measure. |
| Clarification.HistoryLifecycle | crates/north-persistence/src/clarification.rs:936-1278 | Over any history the rules hold and the number of changes is bounded by the measure. |
| Clarification.RunBudget | crates/north-persistence/src/clarification.rs:1178-1252 | Whatever is asked of a new run: at most three attempts, and at most 32 changes ever. |
| Clarification.EndedIff | crates/north-persistence/src/clarification.rs:1026-1252 | A run has ended if and only if no operation changes it any more, and any other can be ended by one. |
| Clarification.EveryRunEnds | crates/north-persistence/src/clarification.rs:1178-1252 | A new run has ended after any 32 operations each of which changed it unless it had ended already. |
| Clarification.TerminalAbsorbs | crates/north-persistence/src/clarification.rs:1026-1030 | A finished run stays as it is. |
| Clarification.CancelledGainsNoAttempt | crates/north-persistence/src/clarification.rs:1328-1370 | Once cancelled, a run stays cancelled and never gains another attempt. |
| Clarification.UnknownReasonRecognised | crates/north-persistence/src/clarification.rs:1705-1709 | The failure the daemon reports for an unknown outcome is recognised as one. |
| Clarification.UnknownOutcomeNeverRetried | crates/north-persistence/src/clarification.rs:1158-1200 | Any failure that tells of an unknown outcome, if accepted, ends the run for good. |
| ClarificationStore.UpdateKeeps | crates/north-persistence/src/clarification.rs:364-388 | Moving one run forward keeps at most one live run per requirement. |
| ClarificationStore.InsertKeeps | crates/north-persistence/src/clarification.rs:478-545 | So does creating a run where none is live. |
| ClarificationStore.ClaimAll | crates/north-persistence/src/clarification.rs:1313-1417 | Claims due runs, by due time and then id, up to the limit, and all of them when there are fewer; each starts its next attempt if its owner is registered and ends otherwise, and no other run changes. |
| ClarificationStore.Store.Start | crates/north-persistence/src/clarification.rs:306-614 | Which answer a start gets in every case, the command it names included, and the exact effect: reuse, assignment of the waiting run with its first attempt, or a new run. |
| ClarificationStore.Store.CancelRun | crates/north-persistence/src/clarification.rs:772-880 | When a cancellation is refused, and otherwise its exact effect and the command it names: the one already sent, a new one while an attempt is open, none when the run ends at once. |
| ClarificationStore.Store.ProjectEvent | crates/north-persistence/src/clarification.rs:936-1278 | Which answer an event gets: a repeat its receipt, an early one the gap with both numbers, an unknown session, a conflict or a reused message id a refusal. A fresh receipt says why its event is refused, if it is; otherwise its run becomes what the event makes of it, retried or failed by the rules of `Clarification.ProjectionBecomes`, and nothing else changes. |
| ClarificationStore.Store.ClaimDueRetries | crates/north-persistence/src/clarification.rs:1299-1430 | The same as `ClaimAll`, for a batch size between 1 and 1000, and an error otherwise. |
| SchedulerState.DrainConserves | crates/north-daemon/src/scheduler.rs:436-478 | A pass over the queue loses and invents nothing: each command occurs in its parts as often as in the queue. |
| SchedulerState.DrainLawful | crates/north-daemon/src/scheduler.rs:436-478 | It starts at most one command per free permit and inactive session, none of a cancelled session that is not a cancellation, and suppresses only such. |
| SchedulerState.WorkConserving | crates/north-daemon/src/scheduler.rs:436-478 | Afterwards either no permit is free or every queued command's session is active. |
| SchedulerOrder.InOrderIsLeft | crates/north-daemon/src/scheduler.rs:436-478 | What a pass sends to the back followed by what it does not reach is the queue without what it starts or suppresses. |
| SchedulerOrder.OrderKeptIff | crates/north-daemon/src/scheduler.rs:458-474 | A pass keeps the order within every session if and only if no session has a command waiting for it before the first one that finds no permit and another there or behind. |
| SchedulerOrder.FewKeepOrder | crates/north-daemon/src/scheduler.rs:458-474 | It does when an active session has at most one command queued and any other at most two. |
| SchedulerOrder.OrderBreaks | crates/north-daemon/src/scheduler.rs:436-478 | A history of eight admissions and one completion in which a pass turns two commands of a session round. |
| SchedulerRuns.ScheduleKeeps | crates/north-daemon/src/scheduler.rs:81-93 | Admitting a command keeps every command in one place and four permits in all, and adds it to what is in hand unless it is a cancellation that waits or is dropped. |
| SchedulerRuns.CancellationKeeps | crates/north-daemon/src/scheduler.rs:249-281 | A cancellation flags its session's control, loses none of the commands it takes out of the queue, and adds at most itself. |
| SchedulerRuns.CancellationDroppedIff | crates/north-daemon/src/scheduler.rs:259-279 | After it is admitted, a cancellation is in hand or kept for later if and only if none of its session was kept before. |
| SchedulerRuns.RuntimeKeeps | crates/north-daemon/src/scheduler.rs:95-98 | Scheduling a command again keeps the rules and adds exactly it. |
| SchedulerRuns.EndKeeps | crates/north-daemon/src/scheduler.rs:364-434 | A worker that ends returns its permit and sends the one completion of its command. |
| SchedulerRuns.DrainKeeps | crates/north-daemon/src/scheduler.rs:436-478 | Draining keeps everything in hand, starts only lawful work, and leaves nothing waiting unless something is active. |
| SchedulerRuns.ReceiveKeeps | crates/north-daemon/src/scheduler.rs:100-153 | Handling the next completion never fails, takes exactly its command off the books, and strands nothing. |
| SchedulerRuns.CompletionsExpected | crates/north-daemon/src/scheduler.rs:100-125 | The errors for an inactive session or another command cannot occur for a completion that was sent. |
| SchedulerRuns.CleanupKeeps | crates/north-daemon/src/scheduler.rs:169-216 | Dropping a control never drops one that a queued, active or suppressed command still needs. |
| SchedulerMoves.WorkAdmitted | crates/north-daemon/src/scheduler.rs:81-93 | Work is withheld and reported in a cancelled session, waits at the back of the queue for its session or a permit, and otherwise goes to a worker at once. |
| SchedulerMoves.CancellationAdmitted | crates/north-daemon/src/scheduler.rs:249-281 | A cancellation flags its session and empties the queue of it. With work under way or waiting it is kept, unless one is kept already, and what waited is withheld and reported in order; with neither it takes its own turn. |
| SchedulerMoves.CancellationRescheduled | crates/north-daemon/src/scheduler.rs:95-98 | A cancellation scheduled again takes its turn like work, also in a cancelled session. |
| SchedulerMoves.RemovedFilters | crates/north-daemon/src/scheduler.rs:291-307 | Taking a session out of the queue leaves the rest in its order. |
| SchedulerMoves.WorkerReports | crates/north-daemon/src/scheduler.rs:364-434 | A worker that ends gives its permit back and sends one completion, of its own command. |
| SchedulerMoves.CompletionHandled | crates/north-daemon/src/scheduler.rs:100-153 | A completion is expected exactly of a withheld command or of the one its session runs; a kept cancellation is to be finished if the session has ended by then and rescheduled if not. |
| SchedulerMoves.DrainFrame | crates/north-daemon/src/scheduler.rs:436-478 | A drain gives workers what its pass starts, reports what it suppresses, and leaves what was not reached in front of what was passed over. |
| SchedulerMoves.ControlDropped | crates/north-daemon/src/scheduler.rs:169-216 | A control goes if and only if its session has ended and no worker, queued, withheld or kept command needs it. |
| SchedulerHistory.RunSound | crates/north-daemon/src/main.rs:295-395 | All of these rules hold over every history of admissions, completions, follow-ups and shutdown. |
| SchedulerHistory.WorkConserved | crates/north-daemon/src/scheduler.rs:81-153 | Over every history, a command admitted as work is in hand, in exactly one place, or finished exactly once, and never both. |
| SchedulerHistory.CancelledStartsNothing | crates/north-daemon/src/scheduler.rs:309-362 | While the control of a session is cancelled, only cancellations of that session are given to a worker. |
| SchedulerBook.ScheduleBooked | crates/north-daemon/src/scheduler.rs:81-93 | Against the commands under way: admitting one that is not in hand takes it in hand, unless it is a cancellation while one of its session is kept. |
| SchedulerBook.ReceiveBooked | crates/north-daemon/src/scheduler.rs:100-153 | A completion takes its command, and the cancellation it sets free, off what is in hand, and nothing else. |
| LoopSafety.FinishingMoves | crates/north-daemon/src/coordination.rs:158-183 | Ending a command removes it from the started ones and adds what is handed out, which was not started before. |
| LoopSafety.RescheduleKeeps | crates/north-daemon/src/main.rs:295-332 | After the journal released the next command of the session, the cancellation kept for it is scheduled without breaking the scheduler's rules. |
| LoopSafety.StepKeeps | crates/north-daemon/src/main.rs:285-375 | Every step of the main loop, recovery, failed rewrites and restarts included, keeps: what the scheduler has in hand is started in the journal, and started work is in hand. |
| LoopSafety.RunSafe | crates/north-daemon/src/main.rs:252-375 | So it holds over every run. |
| LoopSafety.CompletionsFindStarted | crates/north-daemon/src/main.rs:295-312 | On every run, the next completion is of a command the journal holds as started, under its session. |
| LoopRecords.DeliveryRecords | crates/north-daemon/src/main.rs:295-332 | On every run, a handled completion leaves its command ended in the journal with the outcome reported, and a cancellation kept for an ended session ended as dispatched. |
| LoopSafety.WorkInHandIffStarted | crates/north-daemon/src/main.rs:378-395 | On every run, the journal holds work as started if and only if the scheduler has it in hand, recovery handed it out and the first handshake is to come, or it is what the last process left and recovery has not run. |
| LoopSafety.OneWorkInHand | crates/north-daemon/src/scheduler.rs:81-93 | On every run, at most one piece of work of a session is in hand. |
| LoopSafety.QueuedPerSession | crates/north-daemon/src/scheduler.rs:332-362 | On every run, two queued commands of a session are cancellations, are the only two, and the session is not active. |
| LoopSafety.DrainKeepsOrder | crates/north-daemon/src/scheduler.rs:436-478 | On every run, the pass that follows a completion keeps the order of the queue within every session. |
| LoopQueue.DeliverTwoIff | crates/north-daemon/src/main.rs:295-332 | Handling a completion brings two commands of one session into a queue that had none if and only if its session keeps a cancellation and goes on, another one is next in the journal, and the drain leaves no permit. |
| LoopQueue.OthersKeepOne | crates/north-daemon/src/main.rs:285-375 | No other step of the main loop does. |
| LoopQueue.QueuedApartUntil | crates/north-daemon/src/scheduler.rs:332-362 | On every run, queued commands of different sessions stop being so at exactly such a completion. |
| LoopOutcomes.OrphanStays | crates/north-daemon/src/scheduler.rs:249-281 | A started command the scheduler does not have in hand stays so through every step, as long as the process lives. |
| LoopOutcomes.DroppedBlocks | crates/north-daemon/src/journal.rs:1486-1500 | Until then the processed boundary stays below it and no work of its session beyond it is begun. |
| LoopOutcomes.RestartCloses | crates/north-daemon/src/journal.rs:646-684 | What a process left started, the next one does not connect without closing, and closing makes it terminal with the outcome found. |
| LoopExamples.SecondCancelDropped | crates/north-daemon/src/scheduler.rs:259-279 | Work and two cancellations of its session lead to such a command. |
| LoopExamples.DroppedForGood | crates/north-daemon/src/main.rs:285-375 | After which it blocks its session, whatever else happens, until the process ends. |
| LoopExamples.TwoCancelsQueued | crates/north-daemon/src/main.rs:295-332 | A run of seven frames and one completion that leaves two cancellations of a session in the queue. |
| RuntimeScheduler.LoopIsDrain | crates/north-daemon/src/scheduler.rs:436-478 | Popping, suppressing, rotating and starting one by one is the pass the theorems are about. |
| RuntimeScheduler.Scheduler.Schedule | crates/north-daemon/src/scheduler.rs:81-93 | On the object with its shared controls, admitting a command is `SchedulerRuns.Schedule`. |
| RuntimeScheduler.Scheduler.ScheduleRuntime | crates/north-daemon/src/scheduler.rs:95-98 | Likewise for scheduling it again. |
| RuntimeScheduler.Scheduler.WorkerEnded | crates/north-daemon/src/scheduler.rs:364-434 | Likewise for the end of a worker. |
| RuntimeScheduler.Scheduler.DrainQueue | crates/north-daemon/src/scheduler.rs:436-478 | Likewise for the drain, loop and early stop included. |
| RuntimeScheduler.Scheduler.RemoveQueued | crates/north-daemon/src/scheduler.rs:291-307 | The session's commands come out in their order and the others stay in theirs. |
| RuntimeScheduler.Scheduler.FinishActive | crates/north-daemon/src/scheduler.rs:100-153 | Likewise for a completion; an unexpected one changes nothing. |
| RuntimeScheduler.Scheduler.Receive | crates/north-daemon/src/main.rs:295-350 | The next completion is always handled. |
| RuntimeScheduler.Scheduler.CleanupControl | crates/north-daemon/src/scheduler.rs:169-216 | A control is dropped exactly when its session has ended and nothing refers to it. |
| RuntimeScheduler.Scheduler.RequestShutdown | crates/north-daemon/src/scheduler.rs:220-236 | Every active session's control is cancelled and nothing else changes. |
| EvidenceBudget.Allocate | crates/north-daemon/src/runtime.rs:1055-1080 | The share is missing exactly when there is less than one byte or file for each repository; otherwise it is the equal share up to the caps. |
| EvidenceBudget.GivesAtLeast | crates/north-daemon/src/runtime.rs:1055-1080 | While the rest covers the remaining repositories, no share is below the first fair share, up to the caps. |
| EvidenceBudget.StaysCovered | crates/north-daemon/src/runtime.rs:466-504 | A repository that spends within its share leaves the others covered. |
| EvidenceBudget.AllocatedIsBounded | crates/north-daemon/src/runtime.rs:1055-1080 | A budget that was allocated is used as it is: the caps of the extraction do not bite. |
| EvidenceBudget.InspectAll | crates/north-daemon/src/runtime.rs:466-507 | Allocation fails only at the start and for more repositories than files; every budget is at least the fair share; each bundle is what its budget chooses from its repository; totals stay within the limits; any other error has its cause in the last repository inspected or in a cancellation; and the violated-budget error is unreachable, as is underflow. |
| EvidenceBudget.NothingChosen | crates/north-daemon/src/runtime.rs:1117-1166 | The selection is empty exactly when no candidate is usable on its own. |
| EvidenceBudget.UsableMeans | crates/north-daemon/src/runtime.rs:1117-1166 | The bounded read makes no difference: a candidate is usable exactly when it and its whole file are text without NUL, the file is within the limit for one file, and both fit what is left. |
| EvidenceBudget.CandidateJoins | crates/north-daemon/src/runtime.rs:1117-1166 | A candidate joins the selection exactly when files and bytes are left and it is such a file. |
| EvidenceBudget.ChosenPicked | crates/north-daemon/src/runtime.rs:1117-1166 | The selection is whole text files at rising positions of the listing, within the budget. |
| EvidenceBudget.Select | crates/north-daemon/src/runtime.rs:1117-1166 | The loop with its early exits takes exactly what considering every candidate in turn would take, and stops with an error exactly at the first candidate it reaches that obstructs it. |
| EvidenceBudget.Extract | crates/north-daemon/src/runtime.rs:1082-1184 | The evidence is that selection and fits the budget and its caps; it is refused exactly when there is a reason, and with the first reason met. |
| ConversationHistory.MergeMessages | apps/web/lib/conversation-pagination.ts:29-35 | The merge is the last message of each id, in order. |
| ConversationHistory.ContiguousPages | apps/web/lib/conversation-pagination.ts:37-67 | The chain is the pages that follow one another from offset 0, with the end and next offset of the last, and the loop terminates. |
| ConversationHistory.FollowsFrom | apps/web/lib/conversation-pagination.ts:37-67 | The chain of linked pages is all of them. |
| ConversationHistory.ConcatIsPrefix | crates/north-persistence/src/conversations.rs:162-174 | Linked pages laid end to end are a prefix of the server's list. |
| ConversationHistory.BuildHistory | apps/web/lib/conversation-pagination.ts:69-89 | A history built from linked pages holds exactly the first messages of the list. |
| ConversationHistory.LoadHistory | apps/web/lib/conversation-pagination.ts:103-110 | The first load is such a history, one page of it. |
| ConversationHistory.AppendPage | apps/web/lib/conversation-pagination.ts:91-101 | Loading more keeps the pages and grows the prefix by one page, also when the list has grown meanwhile. |
| ConversationHistory.RepairHistory | apps/web/lib/conversation-pagination.ts:112-143 | Against a list that grows during the repair, the result is a prefix no shorter than before, the whole list if the end had been reached, and otherwise no page more than needed; the loop terminates. |

## Left out

Values and identities:

- Session, command and message ids are numbers that stand for the non-blank texts in their order; the validation of their text is not modelled. Reasons, contents and the start context are opaque text.
- Event ids are given by the caller or have one of the shapes `runtime-<command>-<n>` and `execution-unknown-<command>`; `EventIds` shows those shapes to be unambiguous. A caller may give an id of those shapes.
- Payload digests are injective and cover the whole envelope; SHA-256 and JSON are not modelled. Integrity checks that compare a stored payload with its own stored digest (crates/north-persistence/src/delivery.rs:88-96) cannot fail in the model.
- Sequences are unbounded naturals: `saturating_add` at the largest u64 and the conversions to i64 are not modelled.
- The reason text of an unknown outcome is modelled without the command and operation ids printed into it, and times are texts: one `now` stands for every time read during one journal call.
- The daemon id filter on records is left out: a journal belongs to one daemon.
- Journal.Journal.AppendEvent: a repeated event whose payload was compacted is answered with a fresh time, as in the source; the contract allows that time only for an event that was known before.

Journal and coordinator:

- `append_event_envelope`, `pending_commands`, `snapshot` and the synchronous `recover` are not modelled: the first three add no state of their own, the last repeats `recover_for_scheduler` with dispatch inside.
- The mutex shared by clones of a journal is not modelled: each update is one atomic step.
- LedgerInvariants.FinishKeeps: the end of a command one of whose event ids is already held has no ledger; `ClashOutcome` and `NameClash` are about it.
- Coordination.ProcessFrame: no append has anticipated an id, and rewrites succeed in this composition; what failed rewrites do is covered operation by operation in `Dispatch`.
- Coordination.RecoverForScheduler: likewise, and the sessions are visited in any order.
- Coordination.ReconcileAndReplay: likewise.
- Dispatch.AtMostOnce: the gap limit is the same before and after a restart. Once two events share an id, the stored file stands for no ledger and `Journal.Valid` is lost; the commands of a ledger do not depend on its events (`NameClash.FinishIs`), but that the stored commands go on as before is not carried through the journal object.
- Dispatch.CallersSupplyStarted: a completion is either of work this process handed out or of a command found started at recovery; that the main loop completes only such commands is `LoopSafety.CompletionsFindStarted`.
- The frames the coordinator builds from results, protocol errors on the wire, and the handshake order are not modelled.

Server:

- SQL, row locks and isolation levels: each transaction is one atomic step.
- One event ledger serves generic, clarification and readiness events; readiness assessments are recorded in it but their own tables are not modelled.
- EndToEnd.RunSafe: no append anticipates an id; what one that does leads to is `NameClash.SharedIff` and `ClashOutcome`.
- EndToEnd.RecordedInOrder: sparse server cursors left by old migrations are taken to be absent; `EventCursor` shows that the updates keep a tight cursor tight.
- Choosing a daemon, and binding a session to a requirement or to repositories are left out.
- CommandCatchUp.CatchingUp: every command of the outbox is valid; the server does not send a stored one that is not (crates/north-server/src/daemon.rs:612-626).
- CommandDelivery.ReachSafe: the server's side of a run is the command history its tables stand for; compaction of the outbox changes no history and is not a step of it.
- ServerOutbox.Outbox.StartCommand: the payload builder is a function of id, session, sequence and command; what identifies a command is everything but its time.

Clarification:

- The command rows inserted by start, cancel and retry claims are allocated as in `ServerOutbox.Allocate`; the run only keeps their ids.
- `dispatch_clarification_message`, activities, retention and the requirement's own transition are not modelled.
- Retry delays and jitter: a due time is any number chosen when the failure is projected.
- ClarificationStore.Store.ClaimDueRetries: rows locked by another claimer are not skipped.
- ClarificationStore.Store.ProjectEvent: as in the source, an assessment is not one of the events it takes; message ids are unique across the store.

Scheduler:

- The runtime control's lifecycle and active-command display, the interrupt call into the executor, thread spawning and channel errors are not modelled.
- SchedulerHistory.WorkConserved: about commands that are not cancellations, each admitted once, as `LoopSafety` shows of the main loop; what becomes of a dropped cancellation is `LoopOutcomes.DroppedBlocks`.
- DaemonLoop: the frames sent to the server, their order, and the shutdown signal when the process ends are not modelled; the gap limit is the same for every process.

Evidence and history:

- Running git, decoding the listing, and sorting it: the candidates are given in the order they are tried, a repository is the map of its readable files, and the byte strings that decode are a given set.
- EvidenceBudget.InspectAll: checking a repository out either fails or gives a workspace; the polls at which cancellation is found are given.
- Message times and ids are ordered numbers: the difference between JavaScript's and PostgreSQL's comparison of the id texts is not modelled, and the server's list only grows.
- Fetch errors, aborts and the React hooks around the history are left out.
