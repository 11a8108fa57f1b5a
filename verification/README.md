# VoltForge, verified in Dafny

VoltForge is a Go service whose logic is a handful of small protocols over SQLite tables, a shard log
beside them, and two algorithms. This project models those protocols as they are written, branch by
branch, and proves what they keep over whole runs of any number of clients. Where a promise needs that two
calls do not overlap, that is a parameter of the run, and the overlapping runs that break it are shown too.

Run `dafny verify dfyconfig.toml` (Dafny 4.11) to check everything.

## What is modelled

| file | modules | what it is about |
|---|---|---|
| `EventBus.dfy` | `BusSpec`, `EventBus` | the subscriber map: closing channels once, bounded buffers, two-phase eviction |
| `Delivery.dfy` | `EventLog`, `Delivery` | publishers, connections and reconnections as one interleaved machine, and its invariant |
| `DeliveryGuarantees.dfy` | `DeliveryGuarantees` | with fan-outs in order: no gap, duplicates, safe resume, at-least-once |
| `DeliveryBooks.dfy`, `DeliveryFates.dfy` | `DeliveryBooks`, `DeliveryFates` | with fan-outs in any order, step by step: where every logged event is, and what each channel accepted, refused or did not hear of |
| `DeliveryAnyOrder.dfy`, `DeliveryHoles.dfy` | `DeliveryAnyOrder`, `DeliveryHoles` | with fan-outs in any order, over whole runs: exactly when a connection misses an event, writes one twice or leaves a hole below its checkpoint |
| `DeliveryLimits.dfy` | `DeliveryLimits` | runs that show what the guarantees do not cover |
| `Subscription.dfy` | `Subscription` | the event and checkpoint tables, `Publish` and `HandleSSE` as imperative code |
| `DeliveryOrder.dfy` | `DeliveryOrder` | what the live loop writes in any run, with overlapping publishers too |
| `Issues.dfy` | `Issues`, `IssueHistory` | compare-and-swap on `version`, and runs of interleaved clients |
| `Prelude.dfy`, `StateMachine.dfy` | `Prelude`, `StateMachines`, `Sessions` | options; transition tables; the session entity |
| `Mitigations.dfy`, `MitigationRuns.dfy` | `Mitigations`, `MitigationRuns` | mitigation calls, the active index, restartable execution, interleaved calls |
| `Batches.dfy`, `BatchRuns.dfy` | `BatchSpec`, `Batches`, `BatchRuns` | one batch attempt with compensation; runs with retries and scheduler ticks |
| `ShardLog.dfy` | `ShardLog` | the bytes of shard files, their names |
| `Recovery.dfy`, `RecordCodec.dfy` | `Recovery`, `RecordCodec` | replay of records and of bytes; a line format that meets the assumption on JSON |
| `SaveRuns.dfy`, `SaveLimits.dfy` | `SaveRuns`, `SaveLimits` | runs of saves that commit and append in two steps, what recovery restores after them, and what it does not |
| `RecoveryService.dfy` | `RecoveryService` | saves and recovery as imperative code, and the files that runs leave on disk |
| `Power.dfy`, `Allocator.dfy` | `PowerSpec`, `PowerAllocator` | power allocation: conservation and inverse |
| `Negotiation.dfy` | `Negotiation` | protocol negotiation: what is agreed and how good it is |
| `Attestations.dfy`, `AttestationRuns.dfy` | `Attestations`, `AttestationRuns` | dual attestation of handshake forms, with its lock and without |

SQL tables are maps (batch items a sequence in list order), a transaction is one atomic step, services
and repositories are classes that change those maps, and whole runs are sequences of actions of a step
function. Each method is proved against a function of its inputs and of the old state, and what the
source promises is proved about that function. Watts, ids and versions are unbounded integers.

Assumptions that the run theorems use, all visible as preconditions, parameters or guards of a step:

- Event delivery: `DeliveryGuarantees` is about runs whose fan-outs come in id order, each after the
  evictions that the ones before call for (the parameter `ordered` of `Delivery.Step`); the appends of any
  number of publishers may overlap. `DeliveryBooks`, `DeliveryFates`, `DeliveryAnyOrder`,
  `DeliveryHoles` and `DeliveryOrder` are about all runs. In all of them no unread event is pruned, and a
  Last-Event-ID header names an id that the subscriber was sent. A fan-out is one step: it runs under the
  read lock, so it cannot meet a registration or a removal, and since it touches each channel once a
  receive falls before or after it. Two publishers share that lock, so two fan-outs may reach two channels in
  opposite orders, which single steps cannot show. To each channel only what reaches it matters
  (`BusSpec.OneChannelAtATime`), and a subscriber has one listed channel at a time; so the theorems, which are
  each about one subscriber, hold with every fan-out placed where it reaches that subscriber. `BusSpec` has
  the single sends and evictions as separate steps. A checkpoint save may fail (the handler uses the context
  of the request that has just ended), so both outcomes are steps.
- Mitigations: calls on one mitigation do not overlap (the parameter `serial` of `MitigationRuns.Step`);
  calls on different ones interleave write by write. What overlapping calls on one can do is stated apart.
- Batches: `ProcessBatch` is not interrupted, and writes of items and compensations succeed. Reads and
  writes of sessions in `processItem` fail at will (`faults`).
- Shard log: a save commits its row and appends its record in two steps, and the append may fail unnoticed.
  That recovery restores a session's progress is promised for runs in which a session is saved again only
  after the append of its save before (the parameter `serial` of `SaveRuns.Step`; saves of different sessions
  interleave), and for the sessions whose last record has been appended (`Settled`). A failed append writes
  no bytes, a session keeps its number and its shard, and JSON is a `Codec` that is `Faithful`: one non-empty
  line without a newline, decoded back exactly, no proper prefix of it decoded. The time at which a line is
  appended is part of its record. `RecordCodec` gives a codec that is faithful.
- Attestation: calls are whole, as under the lock of `AttestationWithLock`; `AttestationRuns` takes them apart
  and proves that with the lock they are. Times have a precision of one second, so two requests of one party
  may bring the same signature; where a theorem needs that none does, it says so (`DistinctRequests`).

## What turned out not to hold

Each of these is a lemma with the exact condition, or with a run that shows it.

- A subscriber that is more than 500 events behind when it registers misses the rest on that connection: no
  gap is possible exactly up to the replay limit (`NoGapExactly`; a run: `MoreThanAReplayIsLost`). However
  that connection goes on, it never writes them (`MissedByTheConnectionForGood`); a new connection that names
  the last replayed id is given the rows that follow (`NextPage`; a run: `ReconnectBringsTheNext`).
- The replay does not advance `lastSentID`, so exactly the events fanned out after Register and logged
  before the replay query are written twice (`DuplicatesExactly`; a run: `AnEventIsWrittenTwice`). In any run
  they are those that the query returned and the channel delivered ahead of all greater ones
  (`WrittenTwiceExactly`).
- Two publishers whose fan-outs overtake each other lose an event for a subscriber that is connected and up
  to date (`ConcurrentPublishersLoseAnEvent`). In any run a live connection misses nothing exactly when
  the events fanned out before it registered are within the replay limit, each of those its channel delivered
  is replayed or greater than all delivered before it, and those its channel was full for, or no longer listed
  for, are replayed (`NothingMissedExactly`); to a connected one the last has not happened.
- Nor is a checkpoint safe then: a connection saves an id while a smaller one is still to be fanned out, and
  the next connection drops the smaller one when it comes (`OvertakenCheckpointSkipsAnEvent`). Fan-outs in id
  order are not enough: between the fan-out that finds a channel full and its eviction the channel may get
  a later event (`PendingEvictionLeavesAHole`). What a live connection has sent, whether it is still connected,
  about to be evicted, evicted or replaced, leaves no hole exactly when nothing was delivered after a greater
  id without a replay and all smaller new events that its channel has not delivered are replayed. Those are in
  one of five places each: fanned out before it registered, waiting, in flight, refused by the full channel, or
  fanned out when the channel was no longer listed (`LeavesNoHoleExactly`). A checkpoint is safe exactly when
  other connections of the subscriber were sent what is in the holes (`CheckpointIsSafeExactly`).
- The deferred Unregister names a subscriber and not a channel, so a connection that has been replaced closes
  the channel of its successor (`UnregisterClosesExactly`, `ReconnectIsEvictedByItsPredecessor`).
- Overlapping calls on one mitigation break the active index (`OverlappingCallsBreakTheIndex`): it is right at
  every moment of a run exactly when no call saves an active row while its session's entry is another's
  (`SaveKeepsAgreeExactly`, `IndexIsRightExactly`). They can also undo a withdrawal with the index staying
  right (`OverlappingCallsUndoAWithdrawal`): an action makes an inactive mitigation active again exactly when
  it is the write of a call that holds that row in an active state (`RevivedExactly`).
- Compensation demotes a session that was charging before the attempt to negotiating, exactly when an item
  still to be done names it without a fault and some item of the batch is blocked (`DemotedExactly`,
  `RollsBackExactly`, `ChargingSessionIsDemoted`). A rolled-back batch counts the items it has just rolled
  back as succeeded (`RollbackCounts`).
- Log and table part when two saves of one session commit in one order and append in the other
  (`OverlappingSavesGoBack`), when the process ends between commit and append (`CrashBeforeAppendGoesBack`) and
  when an append fails (`FailedAppendGoesBack`): recovery then puts the older row back. In any run it restores a
  session's progress exactly when the last appended record shows it (`ReplayIsCurrentExactly`).
- An append after a torn tail glues its record to the tail, so it is not a line of its own (`AppendAddsRecordExactly`);
  a file whose shard has no protocol is not found again (`RecoveryFindsFileExactly`); a date with an underscore
  does not split back (`SplitUndoesShardIDExactly`).
- Replay restores state, version, handshake and mitigation only; recovery onto an empty table gives
  the other columns of the first record, not of the last (`RecoveredFromNothingExactly`, `FirmwareIsNotRestored`).
- `countLines` and `splitLines` agree exactly on files without blank lines (`CountAgainstLines`).
- A charger that lists a protocol twice is taken by its last usable entry; agreements with it reach the most
  that any pair of entries allows exactly when the last entries are the strongest
  (`PairwiseOptimalExactly`). The voltage of an agreement is always the negotiator's minimum; the
  voltage ranges of the capabilities are not looked at (`Negotiator.Negotiate`).
- Without its lock, two overlapping attestations both succeed and one signature is lost
  (`OverlappingCallsLoseASignature`). If no request is repeated within its second, a save keeps all signatures
  exactly when nobody else has saved the form since it was read (`UnrepeatedSaveKeepsSignaturesExactly`); a
  repeated request loses nothing (`RepeatedCallLosesNothing`), and any save keeps the signatures that are its
  own or that it has read (`SaveKeepsSignaturesExactly`).

## Model

| member | source | states |
|---|---|---|
| BusSpec.CloseOnceInEveryRun | internal/service/eventbus.go:35-87 | in every interleaving of Register, Unregister, single sends, evictions and receives a channel is in the map iff its Done is open, no Done is closed twice, no buffer exceeds 256 |
| BusSpec.BusStepKeepsInv | internal/service/eventbus.go:35-87 | each single step keeps that invariant |
| BusSpec.FanOutInAnyOrder | internal/service/eventbus.go:67-73 | sending to the subscribers one by one, in whatever order the map is walked, is one FanOutEvent |
| BusSpec.OneChannelAtATime | internal/service/eventbus.go:65-74 | however the sends of fan-outs that share the read lock mix with each other and with receives, each listed channel ends as after the sends to its own subscriber and the receives from it alone |
| BusSpec.FanOutOnEach | internal/service/eventbus.go:65-74 | each listed channel with fewer than 256 events takes the event at its end, each full one keeps what it has and is found full |
| BusSpec.DropOnEach | internal/service/eventbus.go:75-85 | dropped ids leave the map and their channels are closed; every other listed channel, and every closed one, stays as it is |
| BusSpec.PublishOnEach | internal/service/eventbus.go:60-87 | a whole publication on each listed subscriber: it has the event at the end of its buffer, or it was full and is gone with its channel closed |
| BusSpec.DropTwice | internal/service/eventbus.go:77-82 | evicting ids one after the other is evicting them together, so an id that is already gone is harmless |
| EventBus.SubscriberChannel.CloseDone | internal/service/eventbus.go:38-56 | Done may be closed only while open: a second close would panic |
| EventBus.SubscriberChannel.TrySend | internal/service/eventbus.go:68-72 | the non-blocking send succeeds iff the buffer has room, and a refused event changes nothing |
| EventBus.Bus.Register | internal/service/eventbus.go:35-49 | closes the previous channel of the id, if any, and lists a fresh empty one |
| EventBus.Bus.Unregister | internal/service/eventbus.go:51-58 | removes and closes the channel that is listed under the id, or does nothing |
| EventBus.Bus.FanOut | internal/service/eventbus.go:65-74 | the event reaches exactly the channels with room; the list to evict is exactly the full ones |
| EventBus.Bus.Evict | internal/service/eventbus.go:75-85 | closes and removes those of the listed subscribers that are still in the map |
| EventLog.AfterIsSuffix | internal/storage/sqlite_event_sub.go:36-39 | in id order the rows after an id are exactly a final part of the table |
| EventLog.AfterSnoc | internal/storage/sqlite_event_sub.go:15-39 | an appended row is returned by the query iff its id is greater |
| EventLog.QueryIsStretch | internal/storage/sqlite_event_sub.go:30-55 | the query returns a stretch of the table from the first row above the id, cut at the limit only |
| EventLog.NextPage | internal/storage/sqlite_event_sub.go:30-55 | querying again after the last row of a page brings exactly the rows that follow |
| Delivery.StepKeepsInv | internal/service/subscription.go:72-108 | with fan-outs in order, every step of publishers, connections and reconnections keeps: a connection has written a stretch of the replayed rows and then the newer ones among the events its channel delivered, the buffer is the next stretch of the log, and an open channel misses nothing |
| Delivery.RunKeepsInv | internal/service/subscription.go:72-108 | so does every run |
| Delivery.BacklogBySuffix | internal/service/subscription.go:111-112 | how many events a connection has behind it at Register, read off the replay query |
| Delivery.LiveStepKeepsNew | internal/service/subscription.go:102-106 | fed with a stretch of the log, the live loop writes exactly the ids above its starting id and ends at the last of them |
| DeliveryGuarantees.NoGapExactly | internal/service/subscription.go:72-108 | while a live connection stays registered every logged event above its starting id is written, buffered or in flight, iff at most 500 of them had been fanned out when it registered |
| DeliveryGuarantees.WrittenByPosition | internal/service/subscription.go:87-106 | which log positions have been replayed and which have been sent live |
| DeliveryGuarantees.LiveIdsIncrease | internal/service/subscription.go:90-106 | live ids are strictly increasing, start above the starting id and end at lastSentID |
| DeliveryGuarantees.DuplicatesExactly | internal/service/subscription.go:87-106 | an event is written twice iff it was fanned out after Register and logged before the replay query, and never three times |
| DeliveryGuarantees.WrittenIsPrefixClosed | internal/service/subscription.go:87-106 | when an id is written, every needed smaller id has been written before |
| DeliveryGuarantees.ConnectStartsAtLarger | internal/service/subscription.go:80-86 | a connection starts at the larger of checkpoint and header, with nothing written |
| DeliveryGuarantees.CheckpointMovesExactly | internal/service/subscription.go:92-97 | of all steps only the leave of a live connection whose save succeeds moves a checkpoint, that of its own subscriber, and to the id it has sent last |
| DeliveryGuarantees.StepKeepsResumable | internal/service/subscription.go:60-97 | every step keeps all starting ids and checkpoints safe points: nothing at or below them is unsent |
| DeliveryGuarantees.RunKeepsResumable | internal/service/subscription.go:60-97 | so does every run, with each checkpoint save succeeding or failing |
| DeliveryGuarantees.ResumeNeverSkips | internal/service/subscription.go:80-108 | over any chain of disconnects and reconnects a connection starts with nothing above the first checkpoint left unsent, and everything in (afterID, lastSentID] has been written |
| DeliveryGuarantees.NothingIsLost | internal/service/subscription.go:72-108 | at least once, end to end: every event above the first checkpoint has been written by some connection of the subscriber, or is in the current channel, or is being published |
| DeliveryLimits.ConcurrentPublishersLoseAnEvent | internal/service/eventbus.go:60-74 | a run of two overlapping publishers in which a connected, up-to-date subscriber never gets the first event |
| DeliveryLimits.ReconnectIsEvictedByItsPredecessor | internal/service/subscription.go:72-73 | a run without any event in which a reconnecting subscriber's new channel is closed by the connection it replaced |
| DeliveryLimits.PublishedToNobody | internal/service/eventbus.go:60-74 | a run that leaves any number of events in the log and nobody connected |
| DeliveryLimits.MoreThanAReplayIsLost | internal/service/subscription.go:111-112 | a run of a subscriber 501 events behind: live, registered, and the last of these events neither written nor on its way |
| DeliveryLimits.ReconnectBringsTheNext | internal/service/subscription.go:60-67 | the same run continued: a new connection whose header is the last replayed id is given the missed event |
| DeliveryLimits.OvertakenCheckpointSkipsAnEvent | internal/service/subscription.go:94-97 | a run of two overlapping publishers in which a checkpoint passes an event still to be fanned out, and no connection is ever sent it |
| DeliveryLimits.PendingEvictionLeavesAHole | internal/service/eventbus.go:65-85 | a run with all fan-outs in id order in which a channel gets an event between being found full and being evicted, and the connection, still to be evicted, saves a checkpoint past the event that did not fit |
| DeliveryLimits.AnEventIsWrittenTwice | internal/service/subscription.go:87-106 | a run in which one event is both replayed and sent live |
| DeliveryOrder.LiveIsFold | internal/service/subscription.go:90-106 | in every run, with overlapping publishers too, the live loop has written what LiveFold makes of the events its channel delivered |
| DeliveryOrder.AllDeliveredIsWrittenExactly | internal/service/subscription.go:102-106 | in every run the live loop, apart from the replay, writes all new events its channel delivers iff they come in id order |
| DeliveryBooks.StepBooks | internal/service/eventbus.go:60-87 | every step, with fan-outs in any order: the events fanned out and those in flight are the logged ones, each once |
| DeliveryBooks.StepWired | internal/service/eventbus.go:35-58 | every step: each connection that has registered has a channel of its own, which bears its subscriber's id |
| DeliveryBooks.StepFed | internal/service/eventbus.go:60-87 | every step: what a connected channel has delivered and holds is exactly what was fanned out since it was registered, in that order |
| DeliveryFates.StepServed | internal/service/eventbus.go:65-74 | every step, for open and closed channels alike: what a channel delivered and holds is what it accepted, and every event fanned out since it was registered was accepted, refused or not heard of, one of the three |
| DeliveryAnyOrder.EachInOnePlace | internal/service/eventbus.go:60-87 | for a registered connection each logged event is in exactly one of six places: delivered by its channel, waiting in it, in flight, fanned out before Register, refused by the full channel, or fanned out when the channel was no longer listed |
| DeliveryAnyOrder.RunTracks | internal/service/subscription.go:72-108 | in every run: the step facts above, and the replay of a connection brings, of what was fanned out before it registered, the rows within the replay limit |
| DeliveryAnyOrder.WrittenTwiceExactly | internal/service/subscription.go:87-106 | in any run a new event is written twice iff the replay query returned it and the channel delivered it ahead of all greater ones; replayed and live ids increase, so never three times |
| DeliveryAnyOrder.NothingMissedExactly | internal/service/subscription.go:72-108 | end to end, for fan-outs in order or not: a live connection, whatever became of its channel, has every logged event above its starting id written, buffered or in flight iff those fanned out before it registered are within 500 new rows, each one its channel delivered was replayed or greater than all delivered before it, and those refused or not heard of were replayed; a connected one has none of the last kind |
| DeliveryAnyOrder.FanOutsInOrderMissNothing | internal/service/eventbus.go:60-74 | a connected live connection misses nothing in time when the fan-outs since Register come in increasing id order, whatever else overlaps |
| DeliveryHoles.LeavesNoHoleExactly | internal/service/subscription.go:90-106 | for every live connection, also one that is being evicted, has been evicted or replaced: all new ids up to lastSentID have been written iff no delivered event came after a greater one without a replay and all undelivered ones up to there were replayed; an undelivered event is in exactly one of five places |
| DeliveryHoles.CheckpointIsSafeExactly | internal/service/subscription.go:94-97 | for every live connection that started from a safe point: lastSentID is safe as checkpoint iff each new event up to it that was neither replayed nor delivered ahead of all greater ones has been sent by another connection of the subscriber |
| DeliveryHoles.UnregisterClosesExactly | internal/service/eventbus.go:51-58 | in any run a leaving connection closes exactly the open channel listed for its subscriber, whosever it is |
| DeliveryHoles.MissedByTheConnectionForGood | internal/service/subscription.go:72-108 | an event that a live connection has missed is written by it in no continuation of the run |
| Subscription.EventRepo.Append | internal/storage/sqlite_event_sub.go:15-28 | adds one row at the end with an id above all earlier ones, or fails and changes nothing |
| Subscription.EventRepo.ListAfter | internal/storage/sqlite_event_sub.go:30-55 | at most limit rows (100 when it is not positive, 1000 at most) in id order, each above the id; a row above it that is left out is above all of them and the limit is reached |
| Subscription.SubscriberRepo.UpdateCheckpoint | internal/storage/sqlite_event_sub.go:109-117 | changes an existing row only; a missing row is not created, a failure changes nothing |
| Subscription.Publish | internal/service/eventbus.go:60-87 | append, then fan-out, then eviction of exactly the subscribers found full; an append that fails leaves table and bus alone |
| Subscription.ChannelIsFifo | internal/service/eventbus.go:42-46 | whatever others do to the bus, what a channel delivers and then what waits in it is what waited before and then what was sent to it while it was listed and had room |
| Subscription.LiveLoop | internal/service/subscription.go:91-107 | while others use the bus, the select loop goes on until the context ends or Done is closed, and writes what LiveFold makes of the events its own channel delivered |
| Subscription.LiveLoopKeepsAllExactly | internal/service/subscription.go:102-106 | it writes every event of its channel iff they arrive in increasing order above the starting id; what it writes is increasing in any case |
| Subscription.ReplayEvents | internal/service/subscription.go:111-125 | writes the rows of the query in order, all of them iff the query succeeds and the context lasts that long; nothing if the query fails |
| Subscription.Stream | internal/service/subscription.go:80-108 | what is written after registration, that a failed or cut replay ends it, and that only a loop ended by the context saves lastSentID |
| Subscription.FoldWritesRecords | internal/service/subscription.go:102-106 | the live loop writes an event of its channel iff it is above the starting id and above all that came before it |
| Subscription.HandleSSE | internal/service/subscription.go:49-109 | not found iff there is no subscriber row; otherwise it starts at a value that is at least checkpoint and header and is one of them; it replays, in order, the ids of table rows above that, at most 500 and none left out below the last, when complete with fewer than 500 none at all; it writes a live event of the channel it registered iff it is above that value and above all delivered before it; it saves the last live id, or that value, iff it ends with the context and the save succeeds; and it leaves the subscriber unregistered |
| Issues.IssueStore.CreateIssue | internal/storage/sqlite_charging.go:64-67 | inserts iff the id is new |
| Issues.IssueStore.TransitionIssue | internal/storage/sqlite_charging.go:83-94 | updates iff the stored version is the one read; state and version as given, a non-empty assignee or evidence is stored, an empty one keeps the stored one; a conflict changes nothing |
| Issues.Service.ReportIssue | internal/charging/service.go:66-89 | which error each rejected report gets, and that an accepted one is open at version 1 under the caller's id |
| Issues.CallExactly | internal/charging/domain.go:80-96 | from which states, with which evidence and for which assignee a row lets each call through, and the columns each leaves |
| Issues.Service.Change | internal/charging/service.go:91-141 | without interference: the states, evidence and assignee for which each call succeeds; then an assignment stores its engineer, a mitigation its evidence and user, a certification its evidence, an empty name keeps the assignee, all else stays but state and version; otherwise the error of the first failing check and no change, never a conflict |
| IssueHistory.VersionIdentifiesRow | internal/storage/sqlite_charging.go:83-94 | for a row that some client has read, the version matches iff the whole row is unchanged |
| IssueHistory.CommitsAreSerial | internal/charging/service.go:66-141 | linearizable: the committed rows of an issue are those of uninterrupted calls one after the other, version is 1 plus the commits, the table shows the last one |
| IssueHistory.CommitExactlyWhenUnchanged | internal/storage/sqlite_charging.go:83-94 | in every run a conditional write takes effect iff the row it was validated on is still the stored one |
| IssueHistory.AtomicProgress | internal/charging/domain.go:80-96 | one call moves at most one stage forward, needs evidence from mitigated on, leaves the report's own fields alone, an assignment the evidence and a certification the assignee |
| IssueHistory.CallStoresItsColumns | internal/charging/service.go:91-141 | a call cut between read and write, with anything in between: it stores its own engineer or evidence on the row it read if nobody has changed that row, and nothing otherwise |
| IssueHistory.CommittedStepIsACall | internal/charging/service.go:91-141 | every committed row after the first is the one before with the columns of one call that it lets through |
| IssueHistory.ReportFilesExactly | internal/charging/service.go:66-89 | a report is filed under its id, open at version 1, iff its fields are set and the id is new |
| IssueHistory.ProgressNeverFalls | internal/charging/service.go:66-141 | along the committed rows every step is allowed by CanTransition, progress never falls or skips, retest_required is never reached, evidence is non-empty from mitigated on, and only an assignment replaces an engineer |
| StateMachines.NewStateMachine | internal/domain/state.go:78-94 | CanTransition holds of exactly the given pairs |
| Mitigations.SaveKeepsAgreeExactly | internal/storage/sqlite_disposition.go:39-98 | saving a row keeps the index right iff an active row finds its session's entry free or its own |
| Mitigations.JoinIsScan | internal/storage/sqlite_disposition.go:108-130 | with a right index the join of GetActiveBySession is the scan by session and active state, with at most one row |
| Mitigations.MovesOfCalls | internal/domain/disposition.go:24-38 | the states from which the table lets Review, Withdraw and Execute go ahead |
| Mitigations.MoveKeepsAgree | internal/service/mitigation.go:99-164 | a move that revives no inactive row keeps the index right |
| Mitigations.RestartedExecutionIsOneRun | internal/service/mitigation.go:179-227 | any number of attempts cut off after any write, then one full attempt, leave the database of one uninterrupted run, up to two version counters: the row completed, its index entry gone, and the session thermal_throttled, protocol_fallback with the target firmware, rejected or as it was, by kind, with its mitigation id |
| Mitigations.CutOfShape | internal/service/mitigation.go:179-227 | another attempt only adds the writes that were missing |
| Mitigations.Service.Save | internal/storage/sqlite_disposition.go:23-98 | one transaction on row and index: an active row enters a free entry, an inactive one leaves its own |
| Mitigations.Service.Submit | internal/service/mitigation.go:36-90 | which error each rejected submission gets; the new row is pending iff its session has no active mitigation and lost otherwise; the index stays right |
| Mitigations.Service.Review | internal/service/mitigation.go:99-134 | which error each rejected review gets; approval issues and rejection refuses, at the next version; the index stays right |
| Mitigations.Service.Withdraw | internal/service/mitigation.go:142-164 | from which states a withdrawal succeeds, its errors, and that the index stays right |
| Mitigations.Service.ExecuteInternal | internal/service/mitigation.go:179-227 | succeeds iff the row is issued or executing, its session exists and no write fails; which columns of row, session and index an execution has changed when it is cut off before each of its writes, the session's by kind; and its errors |
| Mitigations.Service.GetActiveBySession | internal/storage/sqlite_disposition.go:108-130 | returns exactly the active mitigations of the session, at most one |
| MitigationRuns.IndexAgreesInEveryRun | internal/storage/sqlite_disposition.go:39-106 | in every run active[s] = m iff m belongs to s and is active; one active mitigation a session; join equals scan |
| MitigationRuns.SubmittedIsPendingExactly | internal/service/mitigation.go:36-90 | in every run a submission is pending iff no active mitigation of its session exists at that moment |
| MitigationRuns.InactiveStaysInactive | internal/domain/disposition.go:24-38 | an inactive mitigation never becomes active again, although the table lists withdrawn to pending |
| MitigationRuns.ProceedKeepsInv | internal/service/mitigation.go:99-227 | the next query or transaction of one call in flight keeps the index and all other calls in flight valid |
| MitigationRuns.CallInSteps | internal/service/mitigation.go:99-164 | a review or withdrawal that nothing interrupts: the states that let it through and the row it saves |
| MitigationRuns.ExecutionInSteps | internal/service/mitigation.go:179-227 | the read and the three writes of an execution that nothing interrupts are the cut-off executions above, also when the session is missing |
| MitigationRuns.IndexIsRightExactly | internal/storage/sqlite_disposition.go:39-98 | in any run, overlapping and cut anywhere: the index is right at every moment iff no call saves an active row while its session's entry is another mitigation's |
| MitigationRuns.StepKeepsIndexExactly | internal/storage/sqlite_disposition.go:39-98 | the same for one step of any run from a right index |
| MitigationRuns.RevivedExactly | internal/service/mitigation.go:99-227 | in any run an action makes an inactive mitigation active iff it is the successful write of a call that holds the row in an active state |
| MitigationRuns.OverlappingCallsUndoAWithdrawal | internal/service/mitigation.go:138-227 | a run in which an execution overtaken by a withdrawal makes the withdrawn row executing again, with the index right before and after |
| MitigationRuns.OverlappingCallsBreakTheIndex | internal/service/mitigation.go:142-196 | a run of overlapping calls on one mitigation that ends with two active ones on one session, one of them unlisted |
| BatchSpec.ItemSucceedsExactly | internal/service/batch.go:89-113 | an item ends the first loop succeeded iff it had before, or its session, as the attempt found it, exists and is negotiating or charging, and no fault occurs |
| BatchSpec.RollsBackExactly | internal/service/batch.go:89-149 | an attempt rolls back iff some item that had not succeeded before is blocked by its session or a fault, and completes otherwise |
| BatchSpec.RollbackExactly | internal/service/batch.go:92-177 | when some item is blocked, a session that k > 0 items charge is negotiating k + 1 versions later and every other session is untouched, for any item list with repetitions and any faults |
| BatchSpec.DemotedExactly | internal/service/batch.go:152-177 | in such an attempt a session that was charging before ends negotiating iff an item still to be done names it without a fault |
| BatchSpec.ChargingSessionIsDemoted | internal/service/batch.go:152-177 | a batch that takes a charging session out of charging |
| BatchSpec.RollbackCounts | internal/service/batch.go:128-147 | such an attempt counts as succeeded exactly the items that nothing blocked, fails at least one, and persists each item as rolled back, failed or as it was, by its own session and fault |
| BatchSpec.CompletionCharges | internal/service/batch.go:92-126 | when no item is blocked all items end succeeded and every session named by an item of this attempt is charging, one version later for each such item |
| BatchSpec.OtherSessionsStay | internal/service/batch.go:152-180 | completed or rolled back, an attempt leaves alone every session that is neither negotiating nor charging, and every one that no item still to be done names without a fault; an item still to be done that names one of the former rolls the batch back |
| BatchSpec.ProcessedSession | internal/service/batch.go:92-163 | what the first loop does to one session: charging iff it was hit, one version for each hit |
| BatchSpec.CompensatedSession | internal/service/batch.go:128-177 | what the second loop undoes for one session |
| BatchSpec.ChargeCountExactly | internal/service/batch.go:89-113 | a session is charged at all iff some item still to be done names it and may charge it |
| Batches.BatchService.CreateBatch | internal/service/batch.go:33-72 | succeeds iff all sessions exist and all saves succeed; otherwise the batch and the items before the first missing session or failing save stay |
| Batches.BatchService.ProcessItem | internal/service/batch.go:152-163 | succeeds iff the session exists, is negotiating or charging and no fault occurs; then it is charging at the next version, otherwise nothing changes |
| Batches.BatchService.CompensateItem | internal/service/batch.go:165-177 | puts a charging session back to negotiating and leaves any other alone |
| Batches.BatchService.ProcessItems | internal/service/batch.go:89-113 | the loop over the items is the fold ProcessAll, and processedThisAttempt marks exactly its hits |
| Batches.BatchService.CompensateItems | internal/service/batch.go:128-137 | the loop over the marked items is the fold CompensateAll |
| Batches.BatchService.Count | internal/service/batch.go:138-144 | succeeded and failed counts of the in-memory items |
| Batches.BatchService.Settle | internal/service/batch.go:115-149 | completion when all items succeeded, compensation and rollback otherwise |
| Batches.BatchService.ProcessBatch | internal/service/batch.go:74-150 | the error cases change nothing but a started batch's state; a processed batch ends rolled back iff some item still to be done is at fault or its session is missing or neither negotiating nor charging, and completed otherwise, with its counts and version; sessions in other states stay; items and sessions are those of one Attempt |
| Batches.BatchService.Tick | internal/scheduler/tasks.go:69-90 | rolled-back batches go back to pending at the next version, others stay |
| BatchRuns.BatchesInEveryRun | internal/service/batch.go:74-150 | in every run of creations, attempts, ticks and foreign session writes a batch that is not completed has no persisted succeeded item, a rolled-back one accounts for all items, a completed one had all sessions charging at completion |
| BatchRuns.RetryVisitsEveryItem | internal/service/batch.go:92-98 | every attempt of every run tries every item again: each succeeds iff its session may be charged now |
| BatchRuns.CompletedIsFinal | internal/domain/entities.go:147-153 | a completed batch is never processed again: its row and items stay whatever follows |
| BatchRuns.CreateExactly | internal/service/batch.go:33-72 | in runs, what a creation leaves: a pending batch with its total and one pending item for each id up to the first missing session or failing save |
| BatchRuns.ProcessExactly | internal/service/batch.go:74-150 | in runs, when an attempt is refused, completes or rolls back, by states of sessions, and what it leaves alone |
| BatchRuns.TickExactly | internal/scheduler/tasks.go:69-90 | in runs, a tick takes exactly the rolled-back batches to pending |
| BatchRuns.StepKeepsInv | internal/scheduler/tasks.go:69-90 | each creation, attempt, tick and session change keeps these facts |
| ShardLog.SplitLines | internal/storage/recovery.go:199-214 | returns the non-empty stretches between newlines |
| ShardLog.CountLines | internal/storage/shard.go:112-123 | counts newlines, and one more for an unterminated tail |
| ShardLog.LinesOfWritten | internal/storage/shard.go:33-60 | round trip: splitting a file of newline-terminated records gives back the records |
| ShardLog.LinesOfConcat | internal/storage/recovery.go:199-214 | a newline separates: both sides are split on their own |
| ShardLog.LinesOfTornFile | internal/storage/recovery.go:199-214 | any byte prefix of a written file splits into the complete records and at most one non-empty prefix of the next |
| ShardLog.AppendAddsRecordExactly | internal/storage/shard.go:33-60 | an append adds exactly its record iff the file is empty or ends in a newline |
| ShardLog.CountAgainstLines | internal/storage/shard.go:79-123 | countLines is at least the number of lines, and equal iff there is no blank line |
| ShardLog.SplitShardID | internal/domain/support.go:60-67 | splits at the first underscore, the whole name being the date without one |
| ShardLog.ShardFileNames | internal/storage/shard.go:27-31 | the file of a shard is protocol.jsonl in the directory of its date, and is taken for that shard |
| ShardLog.SplitUndoesShardIDExactly | internal/domain/support.go:56-67 | splitting undoes ShardIDFor iff the date has no underscore |
| ShardLog.RecoveryFindsFileExactly | internal/storage/recovery.go:54-60 | the path rebuilt from a listed shard file is that file iff its shard has a protocol |
| Recovery.ReplayOfSession | internal/storage/recovery.go:151-166 | one session after replaying a file: its last record's state, version, handshake and mitigation on its old row or its first record |
| Recovery.RecoverAllOfSession | internal/storage/recovery.go:32-112 | one session after replaying all shards: only its own shard counts, and how often does not |
| Recovery.RecoveryIgnoresOrder | internal/storage/recovery.go:43-111 | recovery is idempotent and independent of the order in which shards are visited |
| SaveRuns.StepKeepsInv | internal/storage/sqlite.go:140-168 | every commit and every append, overlapping or not, keeps table, logs and records in flight to one number and one shard for each session |
| SaveRuns.StepKeepsSerialInv | internal/storage/sqlite.go:140-168 | in serial runs the last record of every settled session shows its live progress, and what is in flight is the live row |
| SaveRuns.RecoveryRestoresProgress | internal/storage/recovery.go:151-166 | after any serial run of saves, replay onto the empty, the live or an older table gives every settled session its live state, version, handshake_id and mitigation_id; when all are settled the live table comes back unchanged |
| SaveRuns.ReplayIsCurrentExactly | internal/storage/sqlite.go:140-168 | in any run, overlapping and cut anywhere, replay gives a session its live progress iff its last appended record shows it, and leaves a session without a record alone |
| SaveRuns.RecoveredFromNothingExactly | internal/storage/recovery.go:151-166 | in any run a session recovered from nothing has the progress of its last and the other columns of its first record, so it comes back in full iff both are today's |
| SaveLimits.OverlappingSavesGoBack | internal/storage/sqlite.go:153-157 | a run of two saves that commit in one order and append in the other, with nothing left in flight: recovery puts the older row back |
| SaveLimits.CrashBeforeAppendGoesBack | internal/storage/sqlite.go:153-157 | a serial run cut between commit and append: recovery puts the older row back |
| SaveLimits.FailedAppendGoesBack | internal/storage/sqlite.go:161-168 | a serial run with an append that fails: recovery puts the older row back |
| SaveLimits.FirmwareIsNotRestored | internal/storage/recovery.go:151-166 | a run whose second save changes the firmware: recovery from nothing brings the first one |
| Recovery.UnparseableLinesHaveNoEffect | internal/storage/recovery.go:88-93 | lines that do not parse change nothing, wherever they stand |
| Recovery.DecodedUndoesEncoded | internal/storage/sqlite.go:161-168 | what is appended is read back record by record |
| RecordCodec.FaithfulCodec | internal/storage/sqlite.go:161-168 | there is an encoding of time-stamped records as single lines that decodes back and none of whose proper prefixes decodes |
| Recovery.TornFileRecoversAPrefix | internal/storage/recovery.go:71-112 | a crash at any byte loses a tail of the records and nothing else: exactly those whose bytes, but for a last newline, had arrived are read |
| RecoveryService.Store.CheckNumber | internal/storage/sqlite_entities.go:27-59 | whether the UNIQUE session number is another row's |
| RecoveryService.Store.CommitSession | internal/storage/sqlite_entities.go:33-59 | the upsert replaces all columns but requested_at, or the transaction fails and changes nothing |
| RecoveryService.Store.AppendShardRecord | internal/storage/sqlite.go:161-168 | an append adds one terminated line to the shard's file, or fails and adds nothing |
| RecoveryService.Store.SaveSession | internal/storage/sqlite.go:140-159 | the reply tells whether the row was committed, and nothing about the append that follows |
| RecoveryService.Store.ReplayRecord | internal/storage/recovery.go:114-166 | a session record updates four columns of an existing row, inserts a missing one, and is refused iff its number is taken |
| RecoveryService.Store.RecoverShard | internal/storage/recovery.go:71-112 | replays the file line by line and counts each line once, as a record or as an error |
| RecoveryService.Store.RecoverFromShards | internal/storage/recovery.go:32-69 | the table and the report of the walk; a file that is not found is damaged and changes nothing |
| RecoveryService.ReportAccounts | internal/storage/recovery.go:71-112 | every listed shard is rebuilt or damaged, and every line of the listed files a record or an error |
| RecoveryService.DamagedExactly | internal/storage/recovery.go:71-77 | the damaged shards are those whose file is not found |
| RecoveryService.SessionRecordsAlwaysReplay | internal/storage/recovery.go:88-99 | recovery never refuses a session record that fits the registry of a run of saves |
| RecoveryService.WalkIsRecoverAll | internal/storage/recovery.go:43-68 | walking the files of the shards is replaying their logs |
| RecoveryService.AppendKeepsMirror | internal/storage/sqlite.go:140-168 | an append keeps files and logs in step, no two shards sharing a file |
| RecoveryService.DiskMirrorsLogs | internal/storage/sqlite.go:140-168 | the files that any run leaves on disk hold exactly its logs |
| RecoveryService.DiskWalkIsReplay | internal/storage/recovery.go:32-69 | walking the files that any run leaves is replaying its logs |
| RecoveryService.RecoveryFromDisk | internal/storage/recovery.go:32-69 | end to end: the bytes any serial run of saves leaves on disk, walked in any order onto the empty, the live or an older table, restore every settled session's live progress |
| PowerSpec.TotalWithout | internal/power/allocation.go:120-126 | the sum over a map does not depend on the order in which its entries are visited |
| PowerSpec.TotalUpdate | internal/power/allocation.go:120-126 | the sum moves by the change of one entry |
| PowerSpec.ConservationInEveryRun | internal/power/allocation.go:60-126 | after any requests and releases each port draws its initial watts plus its active allocations, within its limit, a disabled port has none and draws what it drew at first, and the whole draws at most the larger of capacity and initial use |
| PowerSpec.ClampNeverFires | internal/power/allocation.go:100-103 | releasing an active allocation leaves at least the port's initial watts, so the clamp at zero is never taken |
| PowerSpec.ReleasingAllRestoresPorts | internal/power/allocation.go:92-107 | releasing all active allocations, in any order and after any run, restores the initial state exactly |
| PowerSpec.AllocateThenRelease | internal/power/allocation.go:60-107 | a granted allocation and its release cancel out |
| PowerSpec.StepKeepsInv | internal/power/allocation.go:60-107 | each request and release keeps the books |
| PowerAllocator.Allocator.New | internal/power/allocation.go:46-58 | succeeds iff the capacity is positive and the ports are non-empty, named, rated and distinct; then holds exactly those ports |
| PowerAllocator.Allocator.Allocate | internal/power/allocation.go:60-90 | accepts iff the request is granted or repeats an active allocation, and which error every other request gets; repeated, conflicting and rejected requests change nothing |
| PowerAllocator.Allocator.Release | internal/power/allocation.go:92-107 | removes an active allocation and gives its watts back; an unknown id changes nothing |
| PowerAllocator.Allocator.Snapshot | internal/power/allocation.go:109-118 | a strictly id-sorted listing of the active set, each once, whose watts sum to its total |
| PowerAllocator.BeforeIsLexicographic | internal/power/allocation.go:109-118 | the order of the listing is that of strings: the first difference decides, a prefix comes first |
| PowerAllocator.ListingIsUnique | internal/power/allocation.go:109-118 | there is only one such listing, whatever order the map is walked in |
| PowerAllocator.Allocator.UsedWatts | internal/power/allocation.go:120-126 | the sum of the ports' current watts |
| Negotiation.Negotiator.New | internal/protocol/negotiation.go:51-56 | accepts iff the range is positive and not empty |
| Negotiation.OfferIsLastUsable | internal/protocol/negotiation.go:68-73 | what the charger offers under a name is the power of its last certified entry of that name with positive power |
| Negotiation.AgreementInWatts | internal/protocol/negotiation.go:88-107 | the best capability in entries and watts: within the limits of both entries, the request and the cable, at one of them, and no admitted pair allows more unless the request or the cable is the limit |
| Negotiation.Negotiator.Negotiate | internal/protocol/negotiation.go:58-109 | which requests are canceled, unsafe or without a common protocol; the agreed watts are positive, at most the request, the cable if it has a rating, and the entries of device and charger of the agreed name, and equal one of these; no admitted pair of entries allows more unless request or cable is the limit; a fallback iff RequireStable passed over a stronger pair |
| Negotiation.IndexCharger | internal/protocol/negotiation.go:68-73 | the charger map has exactly the names of certified entries with positive power, at the power of the last such entry |
| Negotiation.Join | internal/protocol/negotiation.go:74-83 | the candidates are exactly the common capabilities at the smaller rating, in device order |
| Negotiation.SortStable | internal/protocol/negotiation.go:87 | a descending, stable permutation |
| Negotiation.FirstIsBest | internal/protocol/negotiation.go:88-107 | the first eligible candidate of the ranking is the best of all, and it is not the first of the ranking iff a stronger one was skipped |
| Negotiation.FirstCapabilityExists | internal/protocol/negotiation.go:89 | indexing the charger's first capability is in bounds |
| Negotiation.AgreementIsOptimal | internal/protocol/negotiation.go:58-109 | the agreed power is positive and the greatest clamped rating of all eligible capabilities, without RequireStable of all common ones; ties go to device order; without RequireStable nothing is a fallback |
| Negotiation.StableAgreementStaysBelowCeiling | internal/protocol/negotiation.go:88-91 | under RequireStable the rating does not exceed the charger's first capability |
| Negotiation.PairwiseOptimalExactly | internal/protocol/negotiation.go:68-83 | agreements with a charger reach the most any pair of entries allows, whatever the device, iff for each name its last usable entry is its strongest |
| Attestations.HandshakeService.Register | internal/service/handshake.go:41-80 | which registrations are rejected, and that a saved form is a draft at version 1 even when saving its sessions then fails |
| Attestations.HandshakeService.AttestationWithLock | internal/service/handshake.go:82-139 | by state and party, which error each request gets; a successful one stores, and replies with, the form with its signer, time, next state and version; the transition table never objects to the computed state |
| Attestations.FirstSigning | internal/service/handshake.go:82-119 | the first request that saves a party's signature on a form |
| Attestations.FirstSignaturesDetermineForm | internal/service/handshake.go:82-119 | after any run of requests a registered form is determined by the first saved signature of each party: state, signers, times and version = 1 + signatures |
| Attestations.CallSucceedsExactly | internal/domain/entities.go:124-137 | a request succeeds iff it is the first to save its party's signature: each party at most once, other parties never; its reply is the form now stored, with its signature on it |
| Attestations.StateIsSignerSet | internal/domain/entities.go:70-137 | two runs reach the same state iff the same parties have signed, in whatever order; authorized iff both have, with both times recorded |
| Attestations.OtherFormsUntouched | internal/service/handshake.go:82-119 | requests leave other forms alone |
| AttestationRuns.UnrepeatedSaveKeepsSignaturesExactly | internal/service/handshake.go:82-112 | in any run of requests that read and save apart, none repeated within its second, a save keeps all signatures of its form iff nobody else has saved the form since it was read |
| AttestationRuns.SaveKeepsSignaturesExactly | internal/service/handshake.go:82-112 | in any such run, repeated requests too: a save keeps all signatures when nobody else has saved the form since it was read, and otherwise iff each stored one is its own or one it has read |
| AttestationRuns.RepeatedCallLosesNothing | internal/service/handshake.go:82-112 | two identical requests of one second that overlap both save and leave the form of one |
| AttestationRuns.LockedRunIsCalls | internal/service/handshake.go:133-139 | with the lock such a run is a run of whole calls, so what is stated of calls holds for it |
| AttestationRuns.OverlappingCallsLoseASignature | internal/service/handshake.go:133-139 | a run without the lock in which two overlapping requests both save and one signature is lost |

## Left out

- The `subscriber_evicted` notice that an evicted connection writes, with id 0, before it returns.
- Event pruning: `Prune` may delete events that a subscriber has not read; the delivery theorems assume it does not.
- `EnsureSubscriber` is the step that creates a checkpoint row; its validation and the rate limiter before `HandleSSE` are not modelled.
- SSE and HTTP formatting, write errors of the response writer, CLI, configuration, logging and application wiring.
- Handshake, mitigation and telemetry replay: their records are `OtherRecord`s whose INSERT succeeds or fails as the parameter `accepts` says. `replayHandshake` lists more columns than its `VALUES` appear to fill, and `replayMitigation` does not rebuild the active index.
- `UpdateStateTx` is called by no service, and `ModifySave` can race with an attestation outside its lock.
- The circuit breaker around `Execute` and the token bucket of the limiter: their logic is in libraries that are not part of this model.
- Roles and authentication sessions: a flag says whether the caller is permitted.
- Thermal controller, cable verifier, certification report, SLA classification and scheduler backoff: single-function ladders and counts.
- `RollbackLedgerCache`: two lines; it writes memory before it reports a failure.
- `allowedTargets`, error texts, timestamps of rows, names and reasons of decisions, telemetry, audit rows and published payloads of the services. Attestation times and signers and the times of shard records are modelled.
- An append that fails after some of its bytes: a failed append writes none. What a torn tail does is in `ShardLog`.
- Batch items: kept per batch in list order instead of by id, with the row that is saved taken to be the one in the list.
- Directory errors of the recovery walk, checksums and shard metadata rows.
- Sessions follow no state machine here: `executeInternal` and `compensateItem` set states without asking it.
- Negotiation.SortStable: an insertion sort stands for `sort.SliceStable`, and returns the sorted slice instead of sorting in place.
- PowerAllocator.Insert: an insertion sort stands for `sort.Slice` in `Snapshot`.
- Attestations.HandshakeService.Register: the sessions of the form are not modelled; `sessionsSaved` says whether saving them succeeds.
- Subscription.HandleSSE: the event table is the one that the replay query sees; other publishers' appends are not interleaved with it here, but in `Delivery`.
- Batches.BatchService.ProcessBatch: is not interrupted, and saving the batch and its items succeeds; `faults` covers the session reads and writes of `processItem`.
