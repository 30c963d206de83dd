# floki, modelled in Dafny

floki is a persistent message queue server that speaks the Redis serialization protocol. Messages are appended to
memory-mapped segment files; named channels read the log independently, hand each message out under a ticket with a
deadline, and hand it out again when the deadline passes without an ack. Old segments are collected once every channel
has passed them, and checkpoints let a restart find the segments and the channels again.

Most entities appear twice: as a value with functions (what an operation means) and, where the source updates an object
in place, as a class whose methods are proved against those functions. Laws about single operations are lemmas about the
values. Laws about whole runs are stated over sequences of states joined by steps.

| files | what they model |
|---|---|
| `Bytes`, `Records`, `Segments`, `Remnants`, `MappedSegment` | little-endian words, records in a file, the recovery scan, one segment as a value and as an object over an array, and what recovery leaves behind its records |
| `Logs`, `Retention`, `TimeSearch`, `Restart`, `Damage`, `LogRuns`, `Backend` | the segmented log, lookups, collection, search by time, checkpoint, recovery from intact and from damaged files, and runs of all of these |
| `Channels`, `ChannelLaws`, `ChannelRuns`, `Deadlines`, `ChannelObject` | in-flight map, lazily cleaned heap, expiry, tickets and their deadlines |
| `Queues`, `QueueLaws`, `InnerQueue`, `Delivery`, `Progress`, `Stranding` | queue operations, what they answer and what the next get then finds, the queue object, at-least-once delivery over runs with maintenance and restarts, how soon it happens, and the states in which a restart loses messages |
| `SharedSegment`, `TristateLock` | one writer and many readers on a segment; the three-state lock |
| `Resp`, `RespLaws`, `RespGrammar`, `Utf8`, `RespBuffers` | the protocol's values, their encoding, the parser and the grammar it decides, and both stream buffers |
| `ParkedClients`, `ParkedRuns`, `WakeLaws`, `ParkedServer` | clients that wait for a message, who is woken by what, and the event loop around them |

Main results: `Delivery.AtLeastOnce`, `Progress.DeliveredWithin`, `Delivery.DeliveriesAreExact`, `Delivery.CrashIsExact`,
`Records.ScanInvertsWriting`, `Records.ScanFaultsExactly`, `Segments.TornReopen`, `Logs.GetIsCeiling`,
`Restart.RestartRestores`, `Damage.DamagedRestart`, `Remnants.PushKeepsQuiet`, `LogRuns.RunIsSound`,
`Retention.GcKeepsLookups`, `Retention.GcIsExact`, `TimeSearch.SearchIsExact`,
`Channels.RealTailIsLowest`, `ChannelRuns.RunConserves`, `Deadlines.HeldUntilDeadline`, `QueueLaws.GetAfterSeekToTime`, `SharedSegment.HeldIsComplete`, `TristateLock.RunIsSafe`,
`RespLaws.RoundTripExactly`, `RespLaws.CutResult`, `RespGrammar.ParseAcceptsExactly`, `RespGrammar.ParseRejectsExactly`,
`RespBuffers.PoppedIsSent`, `ParkedRuns.HandleKeepsPlaced`, `ParkedRuns.ParkedExactlyOnce`, `WakeLaws.PushWakes`.

Properties one would expect that the code does not have, each with the exact condition under which it holds:

- A segment filled to its last byte loses its last message on reopening (`Segments.ReopenRestores`).
- Recovery does not clear the bytes it rejects. Records behind a rejected one come back on a later restart exactly when a push puts a record in front of them so that their ids follow (`Remnants.PushKeepsQuiet`, `Remnants.RejectedReturn`); the segment may then end beyond the start of the next one (`Remnants.RecordReturns`).
- Recovery reads outside a file exactly when whole records lead up to one whose 32-bit end wraps back into the file (`Records.ScanFaultsExactly`).
- Search by time is wrong exactly when its window starts away from the tail and the id before it already reaches the time, because of an empty segment or a purge (`TimeSearch.SearchIsExact`, with `TimeSearch.EmptySegmentMisleads` and `TimeSearch.PurgeMisleads`).
- A restart restores a log exactly when its first segment starts at its tail, or it has no segment and is at id 1 (`Restart.RestartRestores`). A message pushed after a purge is lost by the restart exactly when it went on in a segment with older messages (`Restart.PushAfterPurge`), and a log that a purge and collection have emptied restarts at id 1 with every channel beyond it (`Stranding.PurgeStrandsAll`).
- A restart loses what is pushed afterwards exactly when a written channel tail is beyond the head that comes back (`Delivery.CrashIsExact`). That takes the removal of every listed file, or tails written after segments were added to the listed ones (`Delivery.StrandedIsEmptied`, with runs in `Stranding.StrandedIsReachable` and `Stranding.LateTailIsReachable`).
- A channel created while maintenance reads tails is missed exactly when it is neither read itself nor created after the first reading (`Delivery.CreateStep`).
- A seek to an id at or below one in flight breaks the order between real tail and tail (`ChannelLaws.SeekKeepsRealTail`).
- A queue-wide purge clears the in-flight map but not the heap, so the real tail stays behind when anything was in flight, until exactly the next accepted ack or purge of the channel (`ChannelLaws.QueuePurgeRealTail`, `ChannelLaws.StaleUntilAck`).
- A deadline that wraps to 0 is taken for an expired entry (`ChannelLaws.GetKeepsPrefix`).
- The table of waiting clients breaks exactly when the timer or hang-up of a client is handled after it was woken and before the tick (`ParkedRuns.HandleKeepsPlaced`).
- A finished push notifies the clients that wait for its queue exactly when its own client has not hung up in the meantime (`WakeLaws.PushDone`).
- A status text with a carriage return, or a message id above the signed 64-bit range, does not survive the protocol (`RespLaws.RoundTripExactly`).
- A request cut inside a header line is called invalid rather than incomplete (`RespLaws.CutResult`).

## Model

| member | source | states |
|---|---|---|
| Records.RecordLayout | src/queue_backend.rs:87-93 | a record is its checksum over all that follows, id, timestamp and length in 4, 8, 4 and 4 bytes, least significant first, and then the body |
| Records.RecordReadsBack | src/queue_backend.rs:242-280 | a record written by a push reads back from the file with the same id, timestamp and body, and its checksum is right |
| Records.HoldsAppend | src/queue_backend.rs:242-280 | writing a record at the end of a file keeps every earlier record readable and adds the new one |
| Records.ScanHolds | src/queue_backend.rs:298-354 | every message the recovery scan accepts is a whole, checksummed record with consecutive ids, for any file image at all |
| Records.ScanAccepts | src/queue_backend.rs:298-354 | the first message the scan accepts is a valid record at that offset, with the expected id, that ends before the last byte of the file |
| Records.ScanStopsAtFull | src/queue_backend.rs:298-354 | a file filled to its last byte loses exactly its last message when it is scanned |
| Records.ScanInvertsWriting | src/queue_backend.rs:298-354 | scanning a zero-filled file after any writes gives back exactly the messages written, except that a file filled exactly loses the last one |
| Records.TornScan | src/queue_backend.rs:298-354 | whatever follows the first k bytes, the scan keeps every message that lies wholly within them |
| Records.ScanFaultsExactly | src/queue_backend.rs:298-354 | for any file at all, the scan reads outside it if and only if whole records from the front lead up to one with the next id whose 32-bit end wraps to a place inside the file |
| Records.WrappingFaults | src/queue_backend.rs:298-354 | a file of 30 bytes meets that condition, whatever the checksum is |
| Records.ScanIsForward | src/queue_backend.rs:298-354 | what the scan finds from an offset on depends on no earlier byte |
| Segments.PushKeepsWellFormed | src/queue_backend.rs:242-280 | a push, successful or not, leaves a segment whose file holds exactly its messages |
| Segments.PushKeepsPristine | src/queue_backend.rs:242-280 | a push keeps the magic number at the front and zeros after the last record |
| Segments.FreshAccepts | src/queue_backend.rs:242-280 | a new segment takes a message if and only if header, body and magic number fit the file; otherwise it says the message is too big |
| Segments.OpenedIsWellFormed | src/queue_backend.rs:298-354 | any file image that opens gives a segment whose records are all valid and that has room left |
| Segments.ReopenRestores | src/queue_backend.rs:172-354 | reopening any segment from its own file, whatever stands behind its last record: a file filled to the last byte loses the last message, and otherwise the messages are followed by what the scan finds behind them, or it faults there |
| Remnants.ReopenExactly | src/queue_backend.rs:172-354 | with room left, reopening gives the segment back if and only if the scan finds nothing behind its last record |
| Remnants.OpenedIsQuiet | src/queue_backend.rs:298-354 | whatever image is opened, the result meets that condition, so opening it again changes nothing although the rejected bytes are still there |
| Remnants.PushKeepsQuiet | src/queue_backend.rs:242-354 | a push that leaves room keeps the condition if and only if the old file has nothing behind the place of the new record that the next id would accept |
| Remnants.RecordReturns | src/queue_backend.rs:242-354 | if a whole record with the id after next stands there, the next restart returns it and the segment ends later than it did |
| Remnants.RejectedReturn | src/queue_backend.rs:242-354 | if one record is damaged and rejected, a push of the same size makes the next restart return every record behind it |
| Segments.TornReopen | src/queue_backend.rs:298-354 | reopening an image with anything at all after byte k keeps every message before it, and fails if and only if records that go on from these lead up to a length that wraps |
| OffsetIndexes.OffsetIndex.constructor | src/offset_index.rs:11-16 | an index starts empty at its first id |
| OffsetIndexes.OffsetIndex.PushOffset | src/offset_index.rs:39-47 | afterwards a lookup of the pushed id finds its offset and every other lookup finds what it found before |
| MappedSegments.Segment.Create | src/queue_backend.rs:152-170 | a created segment is empty, zero-filled after the magic number, and starts at the given id |
| MappedSegments.Segment.Map | src/queue_backend.rs:181-213 | a mapped file keeps its bytes and has no messages until it is scanned |
| MappedSegments.Segment.Recover | src/queue_backend.rs:298-354 | the in-place scan ends in the state that opening the image promises, or reports the out-of-range read |
| MappedSegments.Segment.Get | src/queue_backend.rs:215-240 | an id in range gives the message pushed under it, any other id gives nothing; the checks on the header never fail |
| MappedSegments.Segment.Push | src/queue_backend.rs:242-280 | the in-place push gives the answer and the new state of the value-level push, with head, offset, timestamps and index all in step with the bytes |
| MappedSegments.Segment.WriteRecord | src/queue_backend.rs:242-280 | storing the fields and the body, and then the hash over them, gives exactly the record bytes and changes nothing else |
| MappedSegments.Segment.WritePayload | src/queue_backend.rs:242-280 | the field-by-field stores after the hash add up to the payload |
| MappedSegments.Segment.Publish | src/queue_backend.rs:242-280 | timestamps, file offset, index and head move together to the new message |
| Logs.GetIsCeiling | src/queue_backend.rs:494-506 | for every id, a lookup returns the stored message with the least id not below it, or nothing when there is none |
| Logs.CeilingIsUnique | src/queue_backend.rs:494-506 | at most one answer meets that description, so the lookup is fully determined by the stored messages |
| Logs.FindSegment | src/queue_backend.rs:426-433 | the segment found is the first one that holds messages and ends above the id: every earlier one is empty or ends at or below it |
| Logs.PushKeepsShape | src/queue_backend.rs:465-492 | a push keeps segments in id order, all but the last closed, and the head at the end of the last one |
| Logs.PushExtends | src/queue_backend.rs:465-492 | a push adds exactly one message under the old head, or changes no stored message |
| Logs.PushSucceeds | src/queue_backend.rs:465-492 | a push succeeds if and only if the message fits the last segment or is small enough for a new one; otherwise it is too big |
| Logs.PushIsExact | src/queue_backend.rs:465-492 | for every log and configured length, a push extends the last segment if there is room, is too big if that segment could not hold it even when empty, and otherwise closes it and goes into a new one, which fails on an invalid length and leaves an empty new segment behind when the message does not fit that either |
| Logs.PushKeepsDense | src/queue_backend.rs:465-492 | pushes leave no gap between the ids of neighbouring segments |
| Logs.ChainedContents | src/queue_backend.rs:465-492 | without gaps the stored ids are exactly those from tail to head |
| Logs.DenseGet | src/queue_backend.rs:494-506 | in a log without gaps every id from tail to head finds its own message and ids from head on find nothing |
| Retention.GcCount | src/queue_backend.rs:620-673 | collection takes the longest run of oldest segments that policy lets go and stops at the first open or kept one |
| Retention.GcIsExact | src/queue_backend.rs:620-673 | the segments that go are the longest run from the front of closed ones that are over a hard limit or wholly below the smallest tail and beyond both soft limits, each limit stated on the configuration, the clock, the last timestamp and the file sizes; the tail then is the start of the first segment left, or the head |
| Retention.GcIsIdempotent | src/queue_backend.rs:620-673 | collecting twice with the same readings collects nothing more |
| Retention.GcSparesUnread | src/queue_backend.rs:620-673 | without hard limits only closed segments wholly below the smallest tail are collected |
| Retention.GcKeepsLookups | src/queue_backend.rs:620-673 | collection removes a prefix of the segments, keeps the log's shape and leaves every lookup from the new tail on as it was |
| Retention.GcBounds | src/queue_backend.rs:620-673 | afterwards the log is empty, begins with an open segment, or meets both hard limits for every segment |
| TimeSearch.ReachesMonotone | src/queue_backend.rs:435-463 | with timestamps in order, once an id reaches a time all later ids do: the search's comparison is sorted |
| TimeSearch.HeadReaches | src/queue_backend.rs:435-463 | the upper bound the narrowing picks reaches the time, also in a purged log |
| TimeSearch.SearchIsExact | src/queue_backend.rs:435-463 | with timestamps in order the search returns the first id from the tail on at or after the time if and only if the window starts at the tail, or the id before both its start and the tail is still too early |
| TimeSearch.NonEmptyIsSafe | src/queue_backend.rs:435-463 | without empty segments the search fails if and only if a purge left the window start below the tail and purged messages reach the time; without a purge it never fails |
| TimeSearch.EmptySegmentMisleads | src/queue_backend.rs:435-463 | in a well-shaped, ordered log an empty segment after a message makes the search skip that message although it is the right answer |
| TimeSearch.PurgeMisleads | src/queue_backend.rs:435-463 | in a well-shaped, ordered log that was purged the search returns a purged message below the tail |
| Restart.RecoveredIsWellFormed | src/queue_backend.rs:534-583 | whatever the checkpoint and files are, only segments of whole records are recovered, and the head is at the end of the last |
| Restart.RecoversNothing | src/queue_backend.rs:534-583 | a restart finds no segment and starts over at id 1 if and only if every listed file is missing or has an invalid length |
| Damage.RecordBytes | src/queue_backend.rs:215-240 | the bytes of a readable record after its hash are exactly the encoding of its id and message |
| Damage.CutRecord | src/queue_backend.rs:298-354 | a record that a cut goes through is rejected, or one message with the same checksum is taken in its place and the scan ends there; it never faults |
| Damage.CutReopen | src/queue_backend.rs:298-354 | reopening a file that is zero from some byte on succeeds with a prefix of the messages, up to such a last one, and with all that lie before the cut |
| Damage.DamagedRestart | src/queue_backend.rs:534-583 | for the checkpoint of any well-shaped log whose listed files are each missing, of invalid length, cut within the records, or untouched with nothing behind the last record that would be taken for one, the restart succeeds with a well-shaped log, a head no larger, and contents within the old ones up to messages of equal checksum |
| Damage.RecoverIsExact | src/queue_backend.rs:534-583 | for any checkpoint and any files, a restart takes the listed segments that open, in order, closes each that is followed by an open one, and goes from the first id found to the last, or starts at id 1; it fails if and only if the scan of a listed file reads outside it |
| Damage.DamagedRestartIsStable | src/queue_backend.rs:534-618 | the log of such a restart, with the rejected bytes still in its files, restarts from those files to itself |
| Damage.DamagedRestartKeeps | src/queue_backend.rs:534-583 | such a restart keeps every listed message of an untouched file and every one that lies wholly before the cut of its file |
| Damage.RecoveredLookups | src/queue_backend.rs:494-583 | after such a restart every lookup returns the recovered message with the least id not below, whatever holes are left, and that id was stored before |
| LogRuns.PushSettled | src/queue_backend.rs:465-492 | a push, with or without roll-over, leaves nothing to return behind any segment if and only if no old record stands behind its place that the id after it would accept |
| LogRuns.StepKeepsSound | src/queue_backend.rs:465-673 | pushes that meet this, collections, purges and restarts from damaged files keep the log well shaped, with nothing to return |
| LogRuns.RunIsSound | src/queue_backend.rs:465-673 | so does every run of them in any order, and in each of its states every lookup is the least stored id not below |
| LogRuns.OwnFilesAreSalvageable | src/queue_backend.rs:534-618 | in each of these states the log can restart from its own files |
| Restart.ReopenIntact | src/queue_backend.rs:534-583 | reopening listed segments whose files are intact gives them back in order, with their closed marks |
| Restart.ListedIsSuffix | src/queue_backend.rs:585-618 | a checkpoint lists the segments from the first that starts at or after the tail on |
| Restart.RestartKeepsListed | src/queue_backend.rs:534-583 | restarting from a checkpoint with intact files gives exactly the listed segments |
| Restart.RestartRestores | src/queue_backend.rs:534-618 | for files that give their segments back, also ones with rejected bytes in them, checkpoint and restart is the identity if and only if the first segment starts at the tail, or there is none and the log is at id 1 |
| Restart.CheckpointIsExact | src/queue_backend.rs:585-618 | a checkpoint states, in order, the first id, the id after the last and the closed flag of exactly the segments that start at or after the tail of the log |
| Restart.RecoveredIsRecoverable | src/queue_backend.rs:534-583 | whatever the checkpoint and files were, every recovered segment is given back by its own file |
| Restart.RestartIsIdempotent | src/queue_backend.rs:534-618 | so any recovered log of the right shape restarts to itself |
| Restart.PushAfterPurge | src/queue_backend.rs:508-618 | a message pushed after a purge is missing after checkpoint and restart if and only if it went on in a segment that held messages before the purge |
| Backend.QueueBackend.constructor | src/queue_backend.rs:393-404 | a new backend is empty with head and tail at 1 |
| Backend.QueueBackend.FindSegment | src/queue_backend.rs:426-433 | the loop over segments finds the segment that the log's definition names |
| Backend.QueueBackend.Get | src/queue_backend.rs:494-506 | returns the stored message with the least id not below the one asked for |
| Backend.QueueBackend.Push | src/queue_backend.rs:465-492 | gives the log's answer and new state and keeps the backend's invariant, rolling to a new segment when the last is full |
| Backend.QueueBackend.Gc | src/queue_backend.rs:620-673 | the collecting loop removes exactly the segments the retention policy lets go |
| Backend.QueueBackend.CountCollectable | src/queue_backend.rs:620-673 | the loop with its running total stops where the policy over the remaining segments stops |
| Backend.QueueBackend.DiskUsage | src/queue_backend.rs:414-416 | the sum of the segments' file sizes |
| Backend.QueueBackend.FindIdForTimestamp | src/queue_backend.rs:435-463 | with timestamps in order, and also after a purge, the binary search returns the first id at or after the time if and only if the narrowing was safe |
| Backend.QueueBackend.Search | src/queue_backend.rs:435-463 | the loop ends within the window at an id whose predecessor is too early, or at the lower bound, and reaches the time whenever the upper bound does |
| Backend.QueueBackend.Checkpoint | src/queue_backend.rs:585-618 | writes the entries of the segments that start at or after the tail |
| Backend.QueueBackend.Purge | src/queue_backend.rs:508-511 | moves the tail to the head and closes the last segment; no stored message is touched |
| Logs.PurgeKeepsShape | src/queue_backend.rs:508-511 | a purged log keeps its shape |
| Backend.QueueBackend.Recover | src/queue_backend.rs:534-583 | opens the listed files in order, skipping missing and invalid ones, as the restart definition says; after the checkpoint of a well-shaped log with files that are missing, invalid, cut or untouched it cannot fault and the backend is ready for every operation |
| Backend.QueueBackend.ReopenOne | src/queue_backend.rs:534-583 | an invalid file is skipped, an open one closes the segment before it, and each opened segment goes to the end |
| Channels.PopStale | src/queue.rs:386-412 | dropping stale heap entries from the top keeps every live ticket's entry and leaves a live one on top |
| Channels.RealTailIsLowest | src/queue.rs:205-212 | the id on top of the lazily cleaned heap is the least id in flight; without any it is the tail |
| Channels.GetKeepsHeapOk | src/queue.rs:320-368 | a get, first or repeated delivery, keeps map and heap in agreement |
| Channels.AckKeepsHeapOk | src/queue.rs:386-412 | an ack, accepted or refused, keeps map and heap in agreement |
| Channels.AckClearsHeap | src/queue.rs:386-412 | an accepted ack brings map and heap into agreement even when the heap held stale ids below everything in flight |
| ChannelLaws.GetMembers | src/queue.rs:320-368 | a get redelivers the oldest timed-out id under a new ticket, or adds the found id and moves the tail past it, or changes nothing but the touch time |
| ChannelLaws.AckMembers | src/queue.rs:386-412 | an ack succeeds if and only if the ticket is in flight and not timed out, and then removes that ticket and its id only |
| ChannelLaws.StepKeepsRealTail | src/queue.rs:205-212 | every operation that does not move the tail back keeps the real tail equal to the lowest id in flight and never lowers it |
| ChannelLaws.SeekKeepsRealTail | src/queue.rs:414-424 | a seek keeps the invariant if and only if it goes above every id in flight, with the exact condition for the real tail to stay below the tail |
| ChannelLaws.QueuePurgeRealTail | src/queue.rs:438-448 | a queue-wide purge brings the real tail to the new tail if and only if nothing was in flight |
| ChannelLaws.QueuePurgeLeavesStale | src/queue.rs:438-448 | otherwise the heap holds an id below the new tail, while it still has everything in flight |
| ChannelLaws.StaleUntilAck | src/queue.rs:320-412 | a stale heap is healed by exactly an accepted ack or a purge of the channel; every other operation leaves it stale |
| ChannelLaws.ExpireKeepsPrefix | src/queue.rs:214-225 | updating marks the longest timed-out run from the front and nothing else; the marked entries stay a prefix |
| ChannelLaws.GetKeepsPrefix | src/queue.rs:320-368 | a get keeps the marked entries a prefix if and only if it delivers nothing or the new expiry is not the marker value itself |
| ChannelLaws.AckKeepsPrefix | src/queue.rs:386-412 | an ack keeps the marked entries a prefix and their count right |
| ChannelLaws.StepKeepsTimely | src/queue.rs:320-368 | with a clock that does not go back and does not wrap, every operation keeps expiries in order |
| ChannelLaws.InFlightCountIsExact | src/queue.rs:227-230 | then an entry is counted as expired if and only if its time is up, anywhere in the map |
| ChannelLaws.RedeliversWhenTimedOut | src/queue.rs:320-368 | then a get redelivers if and only if some entry in flight has timed out, though it looks only at the first |
| Deadlines.GetIsExact | src/queue.rs:320-368 | a get hands out the first message in flight if its time is up and else the next one found, puts it in flight under the new ticket until clock plus timeout, and leaves every other entry in its order |
| Deadlines.AckIsExact | src/queue.rs:386-412 | an ack succeeds if and only if the ticket is in flight with a deadline after the clock |
| Deadlines.DeadlineIsExact | src/queue.rs:320-412 | a message handed out can be acked at a time if and only if that is before clock plus timeout |
| Deadlines.HeldUntilDeadline | src/queue.rs:205-424 | through any legal steps before the deadline other than its own ack and a purge, the message stays in flight and can be acked until its deadline and no longer |
| Deadlines.AckLeavesOthers | src/queue.rs:386-412 | an accepted ack takes out the entry of its ticket and leaves the others as they are, in order; a refused one leaves all |
| Deadlines.UpdateLeavesRest | src/queue.rs:214-225 | updating leaves tail, touch time and heap as they are |
| ChannelRuns.RunConserves | src/queue.rs:320-412 | over every run each id fetched is either acked or in flight, never both, and both sets only grow |
| ChannelRuns.NewChannelConserves | src/queue.rs:276-291 | a new channel starts conserved |
| ChannelRuns.DeadTicketStaysDead | src/queue.rs:386-412 | over every run a ticket that left the map is never accepted again |
| ChannelRuns.TicketsRetire | src/queue.rs:320-412 | an accepted ack and a redelivery both retire the ticket they end |
| ChannelObjects.Channel.constructor | src/queue.rs:276-291 | a new channel starts at the given tail with nothing in flight |
| ChannelObjects.Channel.RealTail | src/queue.rs:205-212 | returns the lowest id in flight, or the tail |
| ChannelObjects.Channel.UpdateState | src/queue.rs:214-225 | the loop marks exactly the timed-out run from the front |
| ChannelObjects.Channel.InFlightCount | src/queue.rs:227-230 | the entries in flight less the marked ones, after updating |
| ChannelObjects.Channel.Purge | src/queue.rs:232-237 | empties map, heap and count and moves the tail |
| ChannelObjects.Channel.PurgeWithQueue | src/queue.rs:438-448 | moves the tail and empties the in-flight map and the expired count, but not the heap |
| ChannelObjects.Channel.Seek | src/queue.rs:414-424 | moves the tail and leaves entries in flight and the heap as they are |
| ChannelObjects.Channel.Redeliver | src/queue.rs:320-368 | replaces the oldest entry by one for the same id under the new ticket |
| ChannelObjects.Channel.Fetch | src/queue.rs:320-368 | puts the found message in flight and moves the tail past it, or reports the end of the queue |
| ChannelObjects.Channel.Ack | src/queue.rs:386-412 | removes the ticket if it may be acked, then drops stale heap entries |
| ChannelObjects.Channel.DropStale | src/queue.rs:386-412 | the popping loop stops at the first live entry |
| Delivery.StepKeepsGood | src/queue.rs:276-577 | every step keeps the invariant, with reading each tail, collecting, removing each file, writing the segment file and writing the channel file as steps of their own, channels created and deleted among them, and crashes between them |
| Delivery.RunKeepsGood | src/queue.rs:276-577 | the invariant holds in every state of every run |
| Delivery.AtLeastOnce | src/queue.rs:320-412 | in every state of every run each message a channel is owed, from its start on and neither acked nor skipped, is stored unchanged and is in flight or still ahead of the channel |
| Delivery.DeliveriesAreExact | src/queue.rs:320-368 | in every state of every run a get hands out the oldest timed-out message or the next one as it was pushed, never panics, and reports the end only when all that is owed is in flight |
| Delivery.CollectKeepsLogOk | src/queue_backend.rs:620-673 | collecting with a smallest tail read earlier keeps the log whole and never passes that reading |
| Delivery.CreateStep | src/queue.rs:276-291 | a channel created while maintenance reads tails keeps the invariant if and only if it is read too or one tail has been read before |
| Delivery.DeleteStep | src/queue.rs:293-299 | a channel may be deleted at any time, also while tails are read |
| Delivery.SaveSegmentsStep | src/queue_backend.rs:585-618 | after the segment file is written no written tail is beyond the head a restart would come back with |
| Delivery.SaveChannelsStep | src/queue.rs:526-563 | writing the channel file keeps the invariant, and leaves a tail beyond that head if and only if the real tail of some channel is beyond the segments listed before |
| Delivery.RealTailIsSafe | src/queue.rs:526-563 | the tail a checkpoint writes for a channel is at or below every message it is owed |
| Delivery.CrashRecovers | src/queue_backend.rs:534-583 | restarting from an old checkpoint gives back the listed segments with all messages pushed to them since |
| Delivery.CrashIsExact | src/queue.rs:478-577 | a restart at any point between collecting, removing files and the next checkpoint succeeds, and keeps the invariant if and only if no written channel tail is beyond the head that comes back |
| Delivery.StrandedIsEmptied | src/queue.rs:526-577 | that can fail only when every listed file has been removed or a tail was written after segments had been added to the listed ones; never when all segments are listed |
| Delivery.CrashStep | src/queue.rs:478-524 | so a restart keeps everything owed unless it leaves a channel beyond the head |
| Stranding.StrandedIsReachable | src/queue.rs:565-577 | some run of the queue ends between removing the last listed file and the checkpoint with a channel stranded |
| Stranding.LateTailIsReachable | src/queue.rs:526-563 | another run gets there without removing a file: the segments are listed, a segment is added, and then the tails are written |
| Stranding.StrandedLoses | src/queue.rs:320-524 | after a restart from any such state the next message pushed is stored below the tail of the channel, which is told that the queue is at its end |
| Stranding.PurgeStrandsAll | src/queue.rs:438-577 | a queue-wide purge with nothing in flight, maintenance, its checkpoint and a restart leave an empty log at id 1 and every channel at the old head |
| Progress.DeliveredWithin | src/queue.rs:320-368 | in every state of every run, once all a channel has in flight has timed out, a message it is owed is handed out within as many gets as there are entries in flight plus unread messages up to it |
| InnerQueues.InnerQueue.constructor | src/queue.rs:245-263 | a new queue has an empty backend and no channels |
| InnerQueues.InnerQueue.CreateChannel | src/queue.rs:276-291 | a new name starts at the head; a known name is refused and nothing changes |
| InnerQueues.InnerQueue.DeleteChannel | src/queue.rs:293-299 | removes one channel and no other; an unknown name is refused |
| InnerQueues.InnerQueue.PurgeChannel | src/queue.rs:301-310 | moves one channel to the head and drops what it had in flight; the others stay as they were |
| InnerQueues.InnerQueue.Get | src/queue.rs:320-368 | delivers through channel and backend together as the queue definition says; other channels and the log stay as they were |
| InnerQueues.InnerQueue.GetAgain | src/queue.rs:320-368 | the branch that sends the first timed-out message again |
| InnerQueues.InnerQueue.GetNext | src/queue.rs:320-368 | the branch that looks up and sends the next message |
| InnerQueues.InnerQueue.Ack | src/queue.rs:386-412 | acks in one channel and leaves the others and the log as they were |
| InnerQueues.InnerQueue.Push | src/queue.rs:370-374 | pushes to the log and touches no channel |
| InnerQueues.InnerQueue.SeekChannelToId | src/queue.rs:414-424 | moves one channel's tail to the id |
| InnerQueues.InnerQueue.SeekChannelToTimestamp | src/queue.rs:426-436 | moves one channel to the id the search finds, which with timestamps in order is the first from the time on if and only if the search was not misled; an unknown name changes nothing |
| InnerQueues.InnerQueue.SmallestTail | src/queue.rs:565-577 | the loop returns the least real tail of all channels, 0 without channels |
| InnerQueues.InnerQueue.Maintenance | src/queue.rs:565-577 | collects with the smallest real tail, leaves channels alone, then writes the checkpoint of the result |
| InnerQueues.InnerQueue.Checkpoint | src/queue.rs:526-563 | writes every channel's real tail and touch time beside the segment list |
| InnerQueues.InnerQueue.Recover | src/queue.rs:478-524 | restores the log and gives every listed channel its written tail with nothing in flight; with files that are missing, invalid, cut or untouched the queue is ready for every operation |
| InnerQueues.InnerQueue.RestoreChannels | src/queue.rs:478-524 | the loop restores every listed channel, once each |
| QueueLaws.CreateReplies | src/queue.rs:276-291 | a channel is created if and only if its name is new; it starts at the head with nothing in flight, and no other channel changes |
| QueueLaws.DeleteReplies | src/queue.rs:293-299 | a channel is deleted if and only if it exists, and no other changes |
| QueueLaws.PurgeReplies | src/queue.rs:301-310 | a purge succeeds if and only if the channel exists, which then stands at the head with nothing in flight |
| QueueLaws.AckReplies | src/queue.rs:386-412 | an ack is done if and only if the channel exists and holds the ticket until after the clock; otherwise the answer says which of the two is missing |
| QueueLaws.SeekReplies | src/queue.rs:414-424 | a seek succeeds if and only if the channel exists, and moves its tail to the id and nothing else but the touch time |
| QueueLaws.GetReplies | src/queue.rs:320-368 | a get hands out the first message in flight if its time is up, and else the stored one with the least id from the channel's tail on, or says that there is none |
| QueueLaws.DeliveryDeadline | src/queue.rs:320-412 | the ticket of a delivered message is acked at a time if and only if that is before clock plus timeout |
| QueueLaws.GetAfterSeek | src/queue.rs:320-424 | unless a message has timed out, a get after a seek hands out the stored message with the least id not below the one sought |
| QueueLaws.GetAfterPurge | src/queue.rs:301-368 | after a purge a get hands out nothing that was stored at the time of the purge |
| QueueLaws.GetAfterCreate | src/queue.rs:276-368 | a new channel hands out only what is pushed after its creation |
| QueueLaws.GetAfterSeekToTime | src/queue.rs:320-436 | after a seek to the id found for a time a get hands out the first message not older than it, or the end if there is none |
| QueueLaws.CheckpointedChannels | src/queue.rs:478-563 | a checkpoint states for every channel the lowest id still needed and its touch time, and a restart brings every channel back there with nothing in flight |
| Resp.DigitsReadBack | src/protocol.rs:252-259 | decimal digits of any number read back to it |
| Resp.ShowReadsBack | src/protocol.rs:252-259 | a written integer reads back if and only if it fits 64 signed bits |
| RespLaws.ParseAppend | src/protocol.rs:188-199 | once a value is complete, more bytes after it change neither the value nor what is left, for every input |
| RespGrammar.ParseAcceptsExactly | src/protocol.rs:188-305 | for all bytes, the parser accepts a value and leaves a rest if and only if the bytes are an encoding of the value, by a grammar of lines, numbers and counted bytes, followed by that rest |
| RespGrammar.ParseWaitsExactly | src/protocol.rs:188-305 | it asks for more if and only if the bytes are empty, end in the carriage return of a first line, hold fewer counted bytes than announced, or are an array whose next item is cut off so |
| RespGrammar.ParseRejectsExactly | src/protocol.rs:188-305 | it rejects for a given reason if and only if the bytes, or the first failing item of an array, have an unknown tag, no or a broken line end, a text that is not UTF-8, no number where one is due, or counted bytes without their line end |
| RespGrammar.NumberIsRead | src/protocol.rs:252-259 | an integer is read from exactly the decimal numerals of it, with an optional sign and any leading zeros, within the signed 64-bit range |
| RespGrammar.NumberIsWritten | src/protocol.rs:34-65 | integers are written without plus sign, leading zeros or minus zero |
| RespGrammar.WrittenIsEncoded | src/protocol.rs:34-65 | what is written for a clean value is an encoding, by the same grammar, of what clients see of it |
| Utf8.TextIsExact | src/protocol.rs:244-250 | a text is taken for UTF-8 if and only if it is the encoding of a sequence of Unicode scalar values |
| RespLaws.ParseManyAppend | src/protocol.rs:284-296 | the same for the items of an array |
| RespLaws.RoundTrip | src/protocol.rs:34-65 | every clean value written and parsed comes back as clients see it, whatever follows |
| RespLaws.RoundTripAll | src/protocol.rs:34-65 | the same for values written one after another |
| RespLaws.RoundTripMessage | src/protocol.rs:34-65 | a delivered message comes back as an array of id, ticket and body if and only if its id fits 64 signed bits |
| RespLaws.RoundTripExactly | src/protocol.rs:34-65 | the round trip holds if and only if no status or error text holds a carriage return and no message id is above the signed range |
| RespLaws.ParseIsReadable | src/protocol.rs:188-199 | a parsed value has no carriage return in its texts and only 64-bit integers, whatever the bytes were |
| RespLaws.ParsedIsRepresentable | src/protocol.rs:188-296 | a value parsed from fewer than 2^32 bytes has UTF-8 texts and sizes the writer can state, and is its own client view |
| RespLaws.ParsedSurvives | src/protocol.rs:34-296 | such a value comes back unchanged when it is written and parsed again, whatever follows |
| RespLaws.EncodingsArePrefixFree | src/protocol.rs:188-199 | no proper prefix of a written value parses as a value |
| RespLaws.CutResult | src/protocol.rs:188-242 | a cut value is incomplete, except that a cut inside a header line is called invalid: the exact positions are given |
| RespLaws.SeenIsWrittenAlike | src/protocol.rs:34-65 | what a client sees is written with the same bytes as the original |
| RespBuffers.Parser.ReadLine | src/protocol.rs:231-242 | the in-place scan for a line end gives the definition's answer and rest |
| RespBuffers.Parser.ReadStringLine | src/protocol.rs:244-250 | gives the line as text, or the error for bytes that are not UTF-8 |
| RespBuffers.Parser.ReadIntLine | src/protocol.rs:252-259 | gives the integer and the rest, or the error for anything else |
| RespBuffers.Parser.ParseData | src/protocol.rs:270-282 | takes a bulk string or nil, or says what is missing |
| RespBuffers.Parser.ParseArray | src/protocol.rs:284-296 | the loop collects the items in order or stops at the first that fails |
| RespBuffers.Parser.Parse | src/protocol.rs:188-199 | the in-place recursive parser agrees with the definition in value, rest and error |
| RespBuffers.SerializeTo | src/protocol.rs:34-65 | appends exactly the value's bytes |
| RespBuffers.ResponseBuffer.PushValue | src/protocol.rs:108-110 | what was sent and what is buffered stay the bytes of all values pushed |
| RespBuffers.ResponseBuffer.Advance | src/protocol.rs:116-123 | the bytes taken are the next ones of that stream, and clearing an emptied buffer loses none |
| RespBuffers.RequestBuffer.MutBytes | src/protocol.rs:165-173 | making room keeps the unparsed bytes and gives at least the minimum size |
| RespBuffers.RequestBuffer.Fill | src/protocol.rs:161-163 | received bytes are added after the unparsed ones |
| RespBuffers.RequestBuffer.PopValue | src/protocol.rs:147-155 | values popped so far are the values of the received bytes however these were split; a failed pop changes nothing |
| RespBuffers.PoppedIsSent | src/protocol.rs:130-174 | for any split of the written bytes the popped values are a prefix of those written, and the rest is still to come |
| TristateLock.StepKeepsConsistent | src/tristate_lock.rs:62-125 | every step of every thread keeps the two inner locks in agreement with the guards held |
| TristateLock.RunIsSafe | src/tristate_lock.rs:62-125 | in every state of every run at most one thread can write, and none reads while another is exclusive |
| TristateLock.SomeThreadAdvances | src/tristate_lock.rs:62-125 | whenever a thread is not idle some thread can move: no deadlock |
| TristateLock.AlwaysDrains | src/tristate_lock.rs:62-125 | from every consistent state there is an order in which all threads finish |
| TristateLock.TryGrantsExactly | src/tristate_lock.rs:72-103 | a try to read or write gets its guard if and only if no thread holds what excludes it, and otherwise leaves the lock as it was |
| TristateLock.TryLockGrantsExactly | src/tristate_lock.rs:115-125 | a try for the exclusive guard gets it if and only if nobody writes, reads or owns, and otherwise gives back what it had taken |
| TristateLock.BlockedGoesOnExactly | src/tristate_lock.rs:62-113 | a waiting thread can go on if and only if nobody holds what it waits for, and then has its guard |
| TristateLock.AskAndDrop | src/tristate_lock.rs:62-113 | a request waits for its own guard; a guard can be dropped at any time, and its thread is then idle |
| SharedSegment.StepKeepsGood | src/queue_backend.rs:215-280 | byte-by-byte writing and stepwise reading in any order keep published records whole |
| SharedSegment.ChecksPass | src/queue_backend.rs:215-240 | a reader that found an offset passes every check and reads the published message, while the writer is anywhere in its push |
| SharedSegment.StartIsGood | src/queue_backend.rs:152-170 | a new segment with any number of readers meets the invariant |
| SharedSegment.RunIsGood | src/queue_backend.rs:215-280 | the invariant holds in every state of every run and published messages are never taken back |
| SharedSegment.ChecksNeverFail | src/queue_backend.rs:215-240 | in every run no reader's check ever fails |
| SharedSegment.HeldIsComplete | src/queue_backend.rs:215-240 | a message a reader holds is complete and stays unchanged in every later state |
| SharedSegment.WriterFinishes | src/queue_backend.rs:242-280 | a push that has begun is published, with head and timestamps updated, after as many steps as its record has bytes and six more |
| SharedSegment.ReaderAdvances | src/queue_backend.rs:215-240 | in any state of a run a lookup finds exactly the published ids, each of three reads passes one check, and no move of another thread disturbs a reader |
| ParkedRuns.HandleKeepsPlaced | src/server.rs:615-966 | from any state with all clients in place, also between two events of one turn, an event keeps them so if and only if it is not the timer or hang-up of a client that was woken since the last tick |
| ParkedRuns.RetryKeepsPlaced | src/server.rs:725-730 | retrying a woken client finds it and hands its own request back to the workers |
| ParkedRuns.Tick | src/server.rs:956-966 | a tick empties the list of woken clients and leaves the waiting table alone |
| ParkedRuns.UnparkingFinds | src/server.rs:852-924 | the timer or hang-up of a client that is not woken finds its place, which exists, and removes that client only |
| ParkedRuns.JobOwner | src/server.rs:653-693 | a running job always belongs to a connected client that is not waiting and whose cookie matches |
| ParkedRuns.RunIsPlaced | src/server.rs:1099-1158 | in every state of every run that meets that condition, with ticks after any number of events, all clients are in place, and after a tick nobody is left woken |
| ParkedRuns.ParkedExactlyOnce | src/server.rs:801-966 | in every state of every such run a client whose timer runs is not being processed and is exactly once, with its own request, in the list of its channel or on the woken list, after a tick in the former; nobody else is in either |
| ParkedRuns.RequestsAreKept | src/server.rs:615-966 | no event of a run and no tick loses or changes the open request of a client it is not about |
| ParkedRuns.WakeEachIsFifo | src/server.rs:820-836 | each channel loses its n longest-waiting clients and keeps the rest in order |
| ParkedRuns.WokenInOrder | src/server.rs:820-836 | those clients join the woken list in that order |
| ParkedRuns.TickMustComeBetween | src/server.rs:852-864 | the condition is needed: a parked client can be woken and its timer still fire in the same turn, and that breaks the table |
| WakeLaws.NotifyIsExact | src/server.rs:820-836 | if the head of a queue moves up by n, each of its channels loses exactly its first n clients, or all if there are fewer; they join the woken list channel by channel in that order, the head is stored and no other queue changes; if it does not move up nothing changes |
| WakeLaws.WaitsExactly | src/server.rs:801-818 | a client is parked last at its channel if and only if the channel exists and the queue has nothing newer than the client saw, and is otherwise put on the woken list |
| WakeLaws.PushDone | src/server.rs:653-693 | when a push is done its client is free and the queue is notified as above, unless the client has hung up: then it is removed and nobody is woken for what it pushed |
| WakeLaws.GetDone | src/server.rs:653-693 | when a get found nothing its client is removed if it hung up, answered if it is late, and otherwise parked or put on the woken list as above, with its timer running |
| WakeLaws.ReplyDone | src/server.rs:653-693 | any other finished job frees its client, or removes one that has hung up, and wakes nobody |
| WakeLaws.RequestStarts | src/server.rs:708-723 | a new request goes to a worker under a new cookie, and no other client is touched |
| WakeLaws.AvailableWakes | src/server.rs:838-850 | available messages wake that many of the longest-waiting clients of the channel, in order, and touch no other channel |
| WakeLaws.TimeUpFrees | src/server.rs:695-706 | when its time is up a client is answered and taken off its list, where the others keep their order |
| WakeLaws.HangupRemoves | src/server.rs:615-651 | a client that hangs up is gone from the server and from its list at once, or only marked while a job of it runs |
| WakeLaws.QueueDeleteWakes | src/server.rs:866-875 | with a queue everybody waiting for it is woken, channel by channel, and no other queue changes |
| WakeLaws.ChannelDeleteWakes | src/server.rs:883-894 | with a channel everybody waiting for it is woken in order, and no other channel changes |
| WakeLaws.TickRetries | src/server.rs:956-966 | a tick sends the request of every woken client to a worker again and touches nobody else |
| WakeLaws.PushWakes | src/server.rs:653-836 | in every run a finished push whose client is still there wakes, for each channel, as many of the longest-waiting clients as there are new messages |
| WakeLaws.WokenIsRetried | src/server.rs:956-966 | in every run a client on the woken list has its own request with a worker after the next tick |
| ParkedServer.ServerState.constructor | src/server.rs:733-794 | a new server has no clients and no queues |
| ParkedServer.ServerState.WaitQueue | src/server.rs:801-818 | parks a client at the back of its channel, or has it retried at once when the queue or channel is gone or has newer messages |
| ParkedServer.ServerState.NotifyQueue | src/server.rs:820-836 | visits every channel of the queue once and wakes its longest-waiting clients, up to the number of new messages |
| ParkedServer.ServerState.NotifyChannel | src/server.rs:838-850 | wakes the longest-waiting clients of one channel, up to the number available |
| ParkedServer.ServerState.Retain | src/server.rs:852-864 | removes one client from one list, which must exist, and keeps the order of the rest |
| ParkedServer.ServerState.NotifyQueueDeleted | src/server.rs:866-875 | visits every channel once and wakes everybody waiting there, then forgets the queue |
| ParkedServer.ServerState.NotifyChannelDeleted | src/server.rs:883-894 | wakes everybody waiting on the channel, then forgets it |
| ParkedServer.ServerState.Tick | src/server.rs:956-966 | the loop retries every woken client and ends settled |

## Left out

- Delivery.AtLeastOnce: stated for configurations without hard retention limits, because these discard unread messages on purpose; a queue-wide purge and seeks backwards or beyond the head are not steps of these runs.
- Delivery.CrashStep: a restart of a run is from the last two checkpoint files, with the listed segment files that were not removed intact and not filled to the last byte, and ends the run when it strands a channel; `Delivery.CrashIsExact` and `Stranding.StrandedLoses` say what that does, `Segments.ReopenRestores` and `Damage.DamagedRestart` what other files lose. A removed file stays missing, so a run does not restart again from the same checkpoint over new files of the same names once all listed ones were gone. Messages in segments that are not listed yet are forgotten with the restart, and so are their ids.
- Damage.DamagedRestart: files that are changed in other ways, such as flipped bytes or a cut behind the last record, are covered only by `Restart.RecoveredIsWellFormed`, `Restart.RestartIsIdempotent`, `Segments.TornReopen` and `Remnants.RejectedReturn`.
- LogRuns.RunIsSound: a push that would bring old records back ends the run, since `LogRuns.PushSettled` shows that it breaks the invariant; restarts are from a checkpoint of the log as it stands.
- Delivery.StepKeepsGood: the tails of one channel file are read at once, and the two files are each replaced at once.
- ChannelRuns.RunConserves: the runs hold gets, acks, updates and forward seeks; purging a channel drops what is in flight and is covered by `ChannelLaws.StepKeepsRealTail`. Tickets are new, where the source draws them at random.
- ChannelLaws.StepKeepsTimely: needs a clock that does not go back and deadlines that do not wrap; the operations themselves model the 32-bit wrap.
- Backend.QueueBackend.FindIdForTimestamp: says nothing about timestamps out of order.
- Backend.QueueBackend.Push: ids stay below 2^64 and a record with the magic number stays below 2^32 bytes.
- Records.ScanFaultsExactly: a wrapped 32-bit sum that passes the bounds check is a fault of the scan; what the release build then reads is not modelled.
- SharedSegment.HeldIsComplete: steps are sequentially consistent; weaker memory orders are not modelled.
- TristateLock.RunIsSafe: poisoning and spurious failures of the inner locks are not modelled.
- ParkedRuns.RunIsPlaced: runs in which the timer or hang-up of a woken client comes before the tick end there, since the table is then broken; a timer exists exactly while its client is parked, cookies do not wrap, and a request is a number.
- ParkedServer.ServerState.NotifyQueue: the order in which a hash map visits its channels is a parameter that lists each of them once.
- Client handlers (`src/server.rs:615-730`) are functions in `ParkedRuns`, not methods: sockets, interest sets and closing are not captured.
- A queue-wide purge is modelled for one channel and for the backend, not as one method of the queue.
- Pushing many messages at once is repeated pushing.
- The checksum is any function of the bytes; the heap is a multiset with its order given by the `partial_cmp` of `src/rev.rs:14-19`, while the derived `Ord` there points the other way; the in-flight map is a sequence in insertion order.
- Memory mapping, syncing, sync offsets, and when bytes reach the disk.
- Waiting for readers before a segment file is removed, and deleting a whole queue.
- Reading and writing checkpoints as JSON, configuration, statistics, the conversion of the offset index to and from bytes.
- Commands and their arguments, worker threads, the network event loop, logging, timers and clocks.
- Allocation failure.
