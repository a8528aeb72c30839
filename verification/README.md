# Proofs about the event path of minilisysm

minilisysm watches a Linux machine and turns what it sees into alarm events. An event is raised by a rule, numbered,
put into a bounded queue, copied by a dispatcher into a queue of every sink, and written by each sink's worker: to a
file of JSON lines, or to a write-ahead log from which a collector is fed over the network. This project models that
path, from the kernel program that measures scheduling delays to the log on disk, in Dafny, and proves what is kept in
every step, over whole runs, through crashes and under concurrency.

- **The log on disk** (`WalNames`, `WalDisk`, `WalCrash`, `WalSegments`, `WalFilesystem`, `WalGeneration`,
  `WalAppend`, `WalLoading`, `SinkLedger`, `SinkRuns`, `NetworkSink`, `Backoff`). Files have cached and durable
  contents, the directory has durable and unsynced entries, every filesystem call is a step that may fail and leaves
  its state in a history, and a crash may keep any subset of the unsynced directory operations. The main results are
  `NetworkSink.NetworkEventSink.RewriteWal` and `NetworkSink.CrashAndRestart`: whatever fails and wherever the machine
  stops, the records that were durable when a rewrite began are found again, in order, and if nothing fails, nothing
  acknowledged comes back; `SinkLedger.Ledger`, kept by every method of the sink: loaded and accepted records are the
  acknowledged ones followed by the pending ones; and `NetworkSink.NetworkEventSink.RunLoop` with
  `SinkRuns.RunHandsOver`: what a whole run delivers, retires and keeps safe.
- **The queues** (`SpscRing`, `RingProtocol`, `RingObserver`). The ring as a class whose calls do not overlap, and the
  same ring with every atomic load and store of producer and consumer interleaved freely, also as a third thread sees
  it.
- **The path** (`Pipeline`, `PipelineRuns`, `EventDispatcher`, `SinkQueues`, `JsonlSink`, `FsyncLimiter`). Collectors,
  dispatchers and sinks as one state machine, up to the end of `Monitor::stop`, beside the dispatcher's and the sinks'
  loops as they run on real rings.
- **The alarms** (`AlarmRule`, `AlarmHistory`, `CriticalWindows`, `AlarmDeadlines`, `RuleEngine`, `EngineCooldown`,
  `QueueAlarm`, `MemoryWindow`, `ProcessTracker`). The threshold rule against the whole history of its samples, many
  targets sharing one pruned map, and the sliding window over a process's memory.
- **The text** (`Framing`, `JsonText`, `JsonLine`, `EventSerializer`, `EventReader`). Framing of the log, and a
  receiver that gets the event itself back from its line (strings as in section 7 of RFC 8259).
- **The edges** (`SchedDelay`, `ConfigLimits`, `Ipv4`, `ValidatedLoops`). The kernel program's accounts, and the
  limits that the loops take for granted.

The check of everything is `dafny verify dfyconfig.toml`.

## How to read the contracts

The network sink's class invariant is `Logged() && Conserved()`. `Logged` says that the pending records are a
selection, in order, of the log up to the current segment, and that the disk's `promise` is among them. A `promise` is
a selection of records that every crash since it was made leaves loadable; each rewrite states which promise it keeps
(`WalGeneration.SafeSince`) and which it makes. That bounds a crash from below; `WalFilesystem.CrashLeaves(d, lines)`
is the exact form: every crash leaves these lines and no others. `SinkRuns.DeliveredOrSafe` follows one promise over
any stretch of a run. `CrashSafe(d, must)` quantifies over every crash image of the disk state.

A run of the ring or of the pipeline is any sequence of states in which each follows from the one before by one atomic
step of one thread. The pipeline's queues accept or refuse freely, so its results hold for every capacity and reserve;
that a queue is a fifo is what `RingProtocol.RingIsAFifo` proves.

## Where the code does less than its prose

- Names padded to six digits sort like numbers only below 10^6 (`src/storage/network_event_sink.cpp:61`, line 283 of
  the same file). Order after loading is claimed for such indices; `WalNames.NameOrderExactly` is the exact limit.
  That nothing is lost in loading is claimed for all: `WalLoading.LoadedInAnyOrder`.
- An append is not synced, and a failed one is not repaired (`src/storage/network_event_sink.cpp:256-267`). The log
  assumes that a failed append leaves whole lines; `Framing.AppendsSurviveExactly` says what happens otherwise.
- The retry delay doubles in 32 bits (`src/storage/network_event_sink.cpp:196`), and `validate` sets no upper limit
  (`src/core/config.cpp:475-486`): `Backoff.BackoffExactly` and `Backoff.PacingExactly` are the exact condition.
- `critical_hit_count` survives a recovery in progress (`src/rules/rule_engine.cpp:311-323`), so critical hits need
  not be consecutive: `CriticalWindows.InARowExactly` says for which rules they are. Critical hits raise no Warning,
  so that `warning_windows` hits in a row may leave the alarm Normal (`src/rules/rule_engine.cpp:274-309`):
  `AlarmDeadlines.RaisedExactly` is the number that is always enough. New queue drops are silent while the queue is at
  its critical threshold with too few critical hits (`src/rules/rule_engine.cpp:274-287`):
  `QueueAlarm.DropsRaiseTheAlarm` and, for which rules, `QueueAlarm.NeverSilentExactly`.
- Pruning forgets the cooldown when `state_ttl_sec` is shorter than `cooldown_sec`: `EngineCooldown.CooldownExactly`.
- `validate` returns early and leaves the later fields unclamped (`src/core/config.cpp:331-338`, lines 364-370), and
  it is not idempotent (`src/core/config.cpp:398-409`).
- `append_json_string` passes other control characters through (`src/storage/event_serializer.cpp:10-41`), which
  section 7 of RFC 8259 does not allow: `JsonText.StringRoundTrip` is the exact condition. `append_double` relies on a
  64-byte buffer (`src/storage/event_serializer.cpp:52-58`): `JsonText.DoubleFits`.
- After a failed write the JSON sink opens its next file while the summary file is still open, so that the summary
  does not open (`src/storage/jsonl_event_sink.cpp:304-308`, lines 335-344): `JsonlSink.SummaryIsLost`.
- From a thread that is neither producer nor consumer, `depth()` may match no real instant
  (`include/minilisysm/queue/spsc_ring_buffer.hpp:49-56`): `RingObserver.NeverSoShort` is such a run, and
  `RingObserver.RealInstant`, `RingObserver.RealBetween` and `RingObserver.AlwaysRealExactly` say when it cannot
  happen.

## Model

| member | source | states |
|---|---|---|
| WalNames.NameRoundTrip | src/storage/network_event_sink.cpp:59-76 | the index read from a segment's name is the index the name was made from, for every 64-bit index, beyond six digits too |
| WalNames.NameShape | src/storage/network_event_sink.cpp:59-63 | a name is events_, the index in at least six digits, more without a leading zero, and .wal |
| WalNames.NameOrderExactly | src/storage/network_event_sink.cpp:59-63 | names sort like indices for all pairs below a limit if and only if the limit is at most 10^6 |
| WalNames.MillionthNameSortsFirst | src/storage/network_event_sink.cpp:283 | the concrete failure: the name of segment 10^6 sorts before the name of segment 999999 |
| WalNames.SortIsAscending | src/storage/network_event_sink.cpp:283 | sorting the names of distinct indices below 10^6 gives the indices in increasing order |
| WalNames.SortKeepsMembers | src/storage/network_event_sink.cpp:283 | sorting loses and invents no segment |
| WalDisk.RecoverableAfterCrash | src/storage/network_event_sink.cpp:304-402 | if every pointwise possible outcome below some index keeps the records, every crash image does: any subset of the unsynced directory operations, any torn file contents |
| WalCrash.RecoverableExactly | src/storage/network_event_sink.cpp:304-402 | and only then: recoverable means exactly that every crash leaves the records, in order, among those segments, for every combination of kept directory operations and torn contents is some crash |
| WalDisk.RecoverableStep | src/storage/network_event_sink.cpp:304-402 | a filesystem call whose possible outcomes contain, index by index, what was possible before cannot make a record unrecoverable |
| WalDisk.AppendStep | src/storage/network_event_sink.cpp:256-263 | appending to any file keeps the promised records recoverable |
| WalDisk.FileSyncStep | src/storage/network_event_sink.cpp:355-362 | syncing a file keeps the promised records recoverable |
| WalDisk.LinkStep | src/storage/network_event_sink.cpp:366-378 | a rename onto a name above all promised segments, or a new name, keeps them recoverable |
| WalDisk.DirSyncStep | src/storage/network_event_sink.cpp:379-382 | syncing the directory keeps the promised records recoverable |
| WalDisk.PublishedIsRecoverable | src/storage/network_event_sink.cpp:379-402 | a generation that is synced under durable names survives every crash with all its records in order |
| WalDisk.LiveViewIsCrashImage | src/storage/network_event_sink.cpp:272-302 | a restart without a machine crash is one of the crash images |
| WalDisk.RebootKeepsEverything | src/storage/network_event_sink.cpp:272-302 | after a reboot the disk holds exactly the crash image, all of it durable |
| WalSegments.GreedyIsUnique | src/storage/network_event_sink.cpp:328-364 | the records and the size limit leave exactly one way to cut segments with the properties of Greedy |
| WalSegments.SegmentSize | src/storage/network_event_sink.cpp:341-354 | with a positive limit every staged segment is smaller than the limit plus its last record |
| WalFilesystem.RecoverableIsCrashSafe | src/storage/network_event_sink.cpp:304-402 | recoverable below an index means that loading after any crash finds the records, in order |
| WalFilesystem.Filesystem.List | src/storage/network_event_sink.cpp:313-320 | a directory listing returns distinct existing segments, and all of them unless it was cut short by an error |
| WalFilesystem.Filesystem.SegmentBytes | src/storage/network_event_sink.cpp:573-586 | the log's size is the sum of its segments, or less after an error |
| WalFilesystem.Filesystem.Read | src/storage/network_event_sink.cpp:288-295 | a segment is read whole, or cut short by an error |
| WalFilesystem.Filesystem.CreateTemporary | src/storage/network_event_sink.cpp:336-340 | one step of its own: changes nothing that loading can see, keeps the promise, may fail |
| WalFilesystem.Filesystem.OpenForAppend | src/storage/network_event_sink.cpp:256-260 | opens the segment's file or creates an empty one under its name; may fail |
| WalFilesystem.Filesystem.Append | src/storage/network_event_sink.cpp:261-268 | one more line at the end, or a failure that may or may not have written it |
| WalFilesystem.Filesystem.SyncFile | src/storage/network_event_sink.cpp:355-362 | the file's contents become durable, or the call fails |
| WalFilesystem.Filesystem.Rename | src/storage/network_event_sink.cpp:366-378 | the name is linked, not yet durably, or the call fails; the promise is kept in every state |
| WalFilesystem.Filesystem.Remove | src/storage/network_event_sink.cpp:389-396 | removing an old segment below a published generation never endangers the promise |
| WalFilesystem.Filesystem.SyncDirectory | src/storage/network_event_sink.cpp:379-402 | all directory operations become durable, or the call fails |
| WalGeneration.WriteSegment | src/storage/network_event_sink.cpp:331-363 | one temporary holds a chunk of the records, durably; closed exactly when it is full or nothing remains |
| WalGeneration.StageGeneration | src/storage/network_event_sink.cpp:327-364 | the staged chunks concatenate to the remaining records and are cut greedily; at least one; terminates; the directory is untouched, also on failure |
| WalGeneration.RenameAll | src/storage/network_event_sink.cpp:366-378 | after success exactly the staged indices are linked to the staged files; after a failure nothing outside them has changed |
| WalGeneration.PublishGeneration | src/storage/network_event_sink.cpp:366-382 | success means that the whole generation is durable and visible; failure leaves every older segment as it was |
| WalGeneration.CleanOldGeneration | src/storage/network_event_sink.cpp:389-401 | removes only listed segments below the generation, whatever fails; without failing calls all of them, and the directory is synced: nothing unsynced is left that a crash could undo |
| WalGeneration.NextGeneration | src/storage/network_event_sink.cpp:309-320 | the generation starts right above the highest listed segment, or at the index counter if that is higher |
| WalGeneration.PrepareGeneration | src/storage/network_event_sink.cpp:304-382 | up to the publishing sync every state keeps the chosen records crash safe, and no older segment changes |
| WalGeneration.GenerationIsLogged | src/storage/network_event_sink.cpp:384-401 | a generation carries its records in order, and alone in the directory it is the whole log |
| WalGeneration.CrashLeavesGeneration | src/storage/network_event_sink.cpp:384-401 | a generation alone in a synced directory: every crash leaves exactly its records, and nothing that was removed comes back |
| WalGeneration.ThroughoutIsSafe | src/storage/network_event_sink.cpp:384-401 | safety for the records remaining extends the safety before the commit to the whole call |
| WalAppend.WriteLine | src/storage/network_event_sink.cpp:256-267 | the line is at the end of the segment, or the segment is as before, created, or has the line in spite of the failure |
| WalAppend.LineAtTheEnd | src/storage/network_event_sink.cpp:256-269 | a line written at the end of the last segment extends a selection of the log by that line |
| WalAppend.GrowLog | src/storage/network_event_sink.cpp:244-270 | a selection of the log stays one while segments only grow and the bound only rises |
| WalLoading.ReadSegments | src/storage/network_event_sink.cpp:276-297 | reads, in name order, a selection of what the listed segments hold, and all of it without errors |
| WalLoading.LoadedIsLogged | src/storage/network_event_sink.cpp:283-297 | below 10^6, reading in name order is a selection of the log in index order, and the whole log if the listing was complete |
| WalLoading.LoadedInAnyOrder | src/storage/network_event_sink.cpp:283-297 | for indices of any size, a complete listing reads every record as often as the log holds it |
| WalLoading.LoadedPending | src/storage/network_event_sink.cpp:283-302 | what was read, even with errors, is a selection of the log below the next index |
| SinkLedger.SelectionSnoc | src/storage/network_event_sink.cpp:219-239 | one popped event more is kept, or is a counted write error, or is a counted drop that is never critical |
| SinkLedger.LedgerAccepts | src/storage/network_event_sink.cpp:234-238 | accepting a record keeps loaded + accepted == acknowledged + pending |
| SinkLedger.LedgerDelivers | src/storage/network_event_sink.cpp:426 | a batch answered with success is credited with its length |
| SinkLedger.LedgerRetires | src/storage/network_event_sink.cpp:409-434 | acknowledging the oldest records keeps loaded + accepted == acknowledged + pending |
| SinkLedger.SelectionIsShorter | src/storage/network_event_sink.cpp:422-434 | the acknowledged batches hold no more records than the delivered ones |
| NetworkSink.NetworkEventSink.Rotate | src/storage/network_event_sink.cpp:246-255 | the next line goes to a fresh segment, with the next free index, exactly when there is none or the current one is full, and to the current one otherwise; the pending records stay a selection of the log |
| NetworkSink.NetworkEventSink.AppendWal | src/storage/network_event_sink.cpp:244-270 | success adds exactly the line at the end of the log; success or failure, the pending records stay a selection of the log up to the current segment, in the segment that rotation leaves |
| NetworkSink.NetworkEventSink.RewriteWal | src/storage/network_event_sink.cpp:304-402 | every disk state of the call keeps the records crash safe; failure changes nothing in memory; success makes every remaining record survive any crash; without failing calls the directory then holds exactly the fresh generation, above every older segment, and every crash leaves exactly the remaining records: nothing acknowledged comes back |
| NetworkSink.NetworkEventSink.CommitGeneration | src/storage/network_event_sink.cpp:384-401 | the commit in memory and the removal of the old generation keep everything remaining crash safe; without failing calls every crash leaves exactly them |
| NetworkSink.NetworkEventSink.AckPending | src/storage/network_event_sink.cpp:404-407 | the first n records leave the pending list only with a durable rewrite, after which all others survive any crash; the promised ones among the rest stay crash safe throughout; without failing calls every crash leaves exactly the others |
| NetworkSink.NetworkEventSink.FlushPending | src/storage/network_event_sink.cpp:409-434 | at least once, in order: with nothing pending nothing happens; a refused batch changes nothing but send_errors; a batch answered with success is credited, and only a durable rewrite retires it; of the promised records, those not in a delivered batch are crash safe throughout; without failing calls a retired record cannot come back after any crash |
| NetworkSink.NetworkEventSink.LogLine | src/storage/network_event_sink.cpp:229-238 | an event's line is in the log, pending and counted, or nothing of it is in memory |
| NetworkSink.NetworkEventSink.HandleEvent | src/storage/network_event_sink.cpp:219-239 | each popped event is accepted, a write error or an overflow drop; a drop is never critical and happens only over the limit |
| NetworkSink.NetworkEventSink.DrainQueue | src/storage/network_event_sink.cpp:217-240 | popped == accepted + write errors + overflow drops, and the accepted lines are a selection in order |
| NetworkSink.NetworkEventSink.DrainQueues | src/storage/network_event_sink.cpp:217-240 | the same over all queues; without failing calls every critical event is kept |
| NetworkSink.NetworkEventSink.DrainQueuesOnce | src/storage/network_event_sink.cpp:214-242 | the same with the compaction at the end: nothing popped is unaccounted for, and every promised record is crash safe throughout; without failing calls the log ends below the limit or holds nothing but the pending records |
| NetworkSink.NetworkEventSink.EnforceWalLimit | src/storage/network_event_sink.cpp:594-604 | below the limit nothing happens; above it, without failing calls, the log holds exactly the pending records, durably; nothing pending changes, and the promised records stay crash safe in every state; without failing calls the log ends below the limit or holds nothing but the pending records, and a compaction survives every crash as it is |
| NetworkSink.NetworkEventSink.LoadWal | src/storage/network_event_sink.cpp:272-302 | if no call failed, every record of the log is pending as often as it is there; below 10^6 the sink also starts valid, with the log in order, and promised; the new segment lies above all others |
| NetworkSink.NetworkEventSink.FlushWhenDue | src/storage/network_event_sink.cpp:181-198 | the turn flushes exactly when something is pending and a flush is due; its answer decides what is delivered, retired or refused, and retry_count counts its failure; the loop's two variables stay on schedule, for any cap |
| NetworkSink.NetworkEventSink.OneRound | src/storage/network_event_sink.cpp:180-199 | one round: the lines kept of what was popped, then the flush, if there is one, on what is pending after the drain; without failing calls the log ends below the limit or holds nothing but the pending records, and a batch that was retired stays away after any crash |
| NetworkSink.NetworkEventSink.RunLoop | src/storage/network_event_sink.cpp:177-200 | over any number of rounds and for any cap: the sink ends exactly where its rounds, the collector's answers and the pacing lead; everything popped is accounted for; retry_count counts the failed flushes; of the records promised at the start, the first have been delivered since, in order, and all others were crash safe in every state of the disk; without failing calls the log ends below the limit or compact |
| NetworkSink.NetworkEventSink.FlushAll | src/storage/network_event_sink.cpp:202-211 | the final loop terminates where the answers lead, with nothing pending or its last flush failed |
| NetworkSink.NetworkEventSink.Shutdown | src/storage/network_event_sink.cpp:201-212 | with the drain before it: at most one refusal, nothing pending unless a post was refused or a call failed, everything popped accounted for, and what was promised delivered or crash safe; without failing calls the log ends below the limit or compact |
| SinkRuns.RunHandsOver | src/storage/network_event_sink.cpp:177-200 | over any run: one batch is delivered for each flushing round whose answer was a success, one send error counted for each refusal, one batch retired for each flush that succeeded; retired batches are delivered ones, all of them without failing calls; pending + kept == retired + still pending, in order |
| SinkRuns.FlushRunHandsOver | src/storage/network_event_sink.cpp:202-211 | the same over the final flushes |
| SinkRuns.FlushingEndsExactly | src/storage/network_event_sink.cpp:202-211 | the final loop can run out of records if and only if a batch may hold one, or none is pending |
| SinkRuns.DeliveredOrSafeOn | src/storage/network_event_sink.cpp:177-212 | stretches of a run compose: what was promised at the start is delivered, in order, or crash safe in every state since |
| NetworkSink.SentCoversAcknowledged | src/storage/network_event_sink.cpp:409-434 | sent_events is never below the acknowledged count; loaded + accepted counts equal acknowledged + pending ones |
| NetworkSink.CrashAndRestart | src/storage/network_event_sink.cpp:272-302 | crash in any state, any image, reboot, load: every promised record is pending again, with everything else on disk, for indices of any size; in order, and promised again, below 10^6 |
| Backoff.BackoffExactly | src/storage/network_event_sink.cpp:177-197 | the k-th consecutive delay is min(base * 2^k, max) for every k if and only if the cap is below 2^31; above, doubling wraps |
| Backoff.DelayWithoutWrap | src/storage/network_event_sink.cpp:196 | the closed form of the doubling loop below 2^31 |
| Backoff.ScheduleNext | src/storage/network_event_sink.cpp:187-198 | what the loop does to its two variables keeps them equal to the delay and the due time that all turns so far determine |
| Backoff.PacingExactly | src/storage/network_event_sink.cpp:187-198 | min(base * 2^k, max) after k failures in a row paces every run if and only if the cap is below 2^31 |
| SpscRing.DepthIsLength | include/minilisysm/queue/spsc_ring_buffer.hpp:49-56 | the difference of the slots is the number of queued items, around the wrap |
| SpscRing.FullTest | include/minilisysm/queue/spsc_ring_buffer.hpp:72-77 | the full test holds exactly when usable capacity is reached |
| SpscRing.EmptyTest | include/minilisysm/queue/spsc_ring_buffer.hpp:40-43 | the empty test holds exactly when nothing is queued |
| SpscRing.SlotsDiffer | include/minilisysm/queue/spsc_ring_buffer.hpp:82-83 | items less than a lap apart share no slot |
| SpscRing.WriteKeepsShape | include/minilisysm/queue/spsc_ring_buffer.hpp:82-83 | writing the free slot disturbs nothing readable, publishing it appends the item |
| SpscRing.PopKeepsShape | include/minilisysm/queue/spsc_ring_buffer.hpp:44-46 | the slot at tail holds the oldest item, and moving tail drops exactly it |
| SpscRing.SpscRingBuffer.CurrentDepth | include/minilisysm/queue/spsc_ring_buffer.hpp:49-56 | the exact length when calls do not overlap |
| SpscRing.SpscRingBuffer.RecordDrop | include/minilisysm/queue/spsc_ring_buffer.hpp:118-130 | one failure, one level counter, and the reserve counter if it was the reserve |
| SpscRing.SpscRingBuffer.Push | include/minilisysm/queue/spsc_ring_buffer.hpp:71-86 | Critical, and any level whose flag is off, is accepted exactly when there is room, the others exactly when more slots than the reserve are free; appended, with the exact high watermark, or counted as a drop under its level, and as a reserve reject exactly when there was room |
| SpscRing.TakesExactly | include/minilisysm/queue/spsc_ring_buffer.hpp:99-116 | level by level and flag by flag: Critical, levels whose flag is off, and everything without a reserve need one free slot; the others need more than min(reserved, usable - 1) |
| SpscRing.SpscRingBuffer.Accept | include/minilisysm/queue/spsc_ring_buffer.hpp:81-97 | the item is in the free slot, published at the end of the queue, and the high watermark is the maximum of itself and the new length |
| SpscRing.SpscRingBuffer.Pop | include/minilisysm/queue/spsc_ring_buffer.hpp:39-47 | the oldest item, or nothing exactly when empty |
| RingProtocol.ProducerStepInv | include/minilisysm/queue/spsc_ring_buffer.hpp:71-97 | every atomic step of emplace keeps the invariant, whatever the consumer is doing |
| RingProtocol.ConsumerStepInv | include/minilisysm/queue/spsc_ring_buffer.hpp:39-47 | every atomic step of pop keeps the invariant, whatever the producer is doing |
| RingProtocol.RingIsAFifo | include/minilisysm/queue/spsc_ring_buffer.hpp:39-86 | in every interleaving popped is a prefix of accepted, the length stays within usable capacity, and the slot being written is none the consumer may read |
| RingProtocol.ProducerDepthIsConservative | include/minilisysm/queue/spsc_ring_buffer.hpp:49-56 | the producer's depth never falls short of the length at the moment it is known, and the high watermark has seen every length |
| RingProtocol.CriticalReserve | include/minilisysm/queue/spsc_ring_buffer.hpp:99-116 | with both drop flags on, non-critical items never use the reserve, and a Critical item is dropped only while at least the reserve of Critical items is queued |
| RingProtocol.AdmissionExactly | include/minilisysm/queue/spsc_ring_buffer.hpp:71-116 | in every interleaving: which levels are admitted once there is room, and that any other is admitted exactly when more slots than the reserve are free by the depth that the producer read, and counted as a reserve reject otherwise |
| RingProtocol.PopExactly | include/minilisysm/queue/spsc_ring_buffer.hpp:39-47 | in every interleaving a pop gives up exactly when the queue is empty as it looks, and takes and publishes the oldest item otherwise |
| RingProtocol.DropExactly | include/minilisysm/queue/spsc_ring_buffer.hpp:118-130 | a push given up moves exactly the counters of its level and its reason, by one |
| RingProtocol.WatermarkWasReal | include/minilisysm/queue/spsc_ring_buffer.hpp:91-97 | in every interleaving the high watermark is a length that the queue really had |
| RingProtocol.EveryPushIsCounted | include/minilisysm/queue/spsc_ring_buffer.hpp:118-130 | accepted plus the three drop counters equals the attempts |
| RingObserver.ThirdPartyDepth | include/minilisysm/queue/spsc_ring_buffer.hpp:49-56 | from a third thread depth stays within capacity; it is the difference of the counts it saw up to whole laps, and exactly that if and only if the consumer has not overtaken the head it saw |
| RingObserver.RealInstant | include/minilisysm/queue/spsc_ring_buffer.hpp:49-56 | while it is not overtaken, the queue was that long at some instant between the loads if and only if all pops came before the first push |
| RingObserver.RealBetween | include/minilisysm/queue/spsc_ring_buffer.hpp:49-56 | overtaken or not, the queue was that long at some instant between the loads if and only if it was at most that long at one and at least that long at another |
| RingObserver.NeverSoShort | include/minilisysm/queue/spsc_ring_buffer.hpp:49-56 | for every ring with room for two, a run in which depth is 0 although the queue was never empty |
| RingObserver.AlwaysRealExactly | include/minilisysm/queue/spsc_ring_buffer.hpp:49-56 | every depth in every run was real at some instant if and only if the ring holds at most one item |
| AlarmRule.EvaluateThreshold | src/rules/rule_engine.cpp:261-330 | updates the context field by field to what the rule's specification function gives, and reports its event; WarningExactly, CriticalIsNeverSuppressed and RecoveryExactly say over streams when that is which |
| AlarmRule.HitsMean | src/rules/rule_engine.cpp:261-274 | in either direction: what is a hit, a critical hit and a recovered sample |
| AlarmRule.ElapsedMeans | src/rules/rule_engine.cpp:298-306 | the subtraction of times is exact on a clock that has not gone back and wraps on one that has |
| AlarmRule.AlwaysConsistent | src/rules/rule_engine.cpp:261-330 | over any stream: Normal means no active notification, Critical means one, and critical hits <= hits <= total hits |
| AlarmRule.AlarmLanguage | src/rules/rule_engine.cpp:261-330 | over any stream the emitted levels are episodes (Warning Critical? Recovery | Critical Recovery) and the beginning of one more |
| AlarmHistory.HitCounter | src/rules/rule_engine.cpp:274-329 | the counters are the lengths of real runs at the end of the history: of hits in Normal, of recovered samples otherwise |
| AlarmHistory.ContextRecords | src/rules/rule_engine.cpp:261-272 | the context's totals: all hits of the stream, its largest value, the time of its last sample |
| AlarmHistory.CriticalCounter | src/rules/rule_engine.cpp:274-329 | critical_hit_count counts the critical hits of a run with only in-progress recoveries between them |
| AlarmHistory.WarningEndsHits | src/rules/rule_engine.cpp:289-309 | an untriggered Warning ends warning_windows consecutive hits |
| AlarmHistory.RecoveryEndsRecovering | src/rules/rule_engine.cpp:311-324 | a Recovery ends recovery_windows consecutive unblocked recovered samples |
| AlarmHistory.CriticalEndsRun | src/rules/rule_engine.cpp:274-287 | an untriggered Critical follows critical_windows critical hits with only in-progress recoveries between them |
| AlarmHistory.CriticalHitsMayBeInterrupted | src/rules/rule_engine.cpp:311-323 | a concrete stream whose critical hits are not consecutive and still alarm |
| CriticalWindows.InARowExactly | src/rules/rule_engine.cpp:274-329 | every untriggered Critical ends critical_windows consecutive critical hits, in all streams, if and only if critical_windows or recovery_windows is at most 1 |
| AlarmHistory.WarningsAreSpaced | src/rules/rule_engine.cpp:298-307 | with a positive monotone clock a Warning is a full cooldown after every earlier Warning or Critical |
| AlarmHistory.CriticalIsNeverSuppressed | src/rules/rule_engine.cpp:279-287 | a sufficient critical hit alarms exactly when the alarm is not Critical already, whatever the cooldown |
| AlarmDeadlines.CriticalInTime | src/rules/rule_engine.cpp:274-287 | critical_windows consecutive critical hits leave the alarm Critical, whatever came before |
| AlarmDeadlines.WarningInTime | src/rules/rule_engine.cpp:289-309 | warning_windows consecutive hits leave the alarm raised when the last of them is not a critical hit |
| AlarmDeadlines.WarningExactly | src/rules/rule_engine.cpp:289-309 | with a positive monotone clock a sample is told Warning if and only if it is found in Normal, a hit and no critical hit, triggered or ending warning_windows hits, and every earlier activation is at least a cooldown ago |
| AlarmDeadlines.RaisedExactly | src/rules/rule_engine.cpp:274-309 | k consecutive hits leave the alarm raised in all streams if and only if k is at least warning_windows + critical_windows - 1, as critical hits raise no Warning; critical_windows are enough for a rule without values between its thresholds |
| AlarmDeadlines.RecoveredInTime | src/rules/rule_engine.cpp:311-324 | recovery_windows consecutive unblocked recovered samples leave the alarm Normal, whatever came before |
| AlarmDeadlines.RecoveryExactly | src/rules/rule_engine.cpp:311-324 | a sample is told Recovery if and only if it is found raised and announced and ends recovery_windows unblocked recovered samples |
| RuleEngine.Engine.PruneExpired | src/rules/rule_engine.cpp:332-366 | removes exactly the contexts that were last seen a time to live ago or earlier, where a time to live of zero is one hour |
| RuleEngine.Engine.EvaluateTarget | src/rules/rule_engine.cpp:98-123 | touch, prune, evaluate: the maps end up exactly as the step function of the engine says |
| RuleEngine.StepTells | src/rules/rule_engine.cpp:98-123 | a step tells its target, from its own context or a fresh one, what the threshold rule of its kind says under the configured cooldown |
| RuleEngine.Engine.EvaluateCpuUsage | src/rules/rule_engine.cpp:98-123 | the percentage under the processor's own thresholds and windows, with the cooldown in milliseconds |
| RuleEngine.Engine.EvaluateIoDelay | src/rules/rule_engine.cpp:228-259 | utilisation triggers only with requests in flight, and utilisation alone blocks recovery, under its kind's own thresholds and windows |
| RuleEngine.Engine.EvaluateSchedDelay | src/rules/rule_engine.cpp:198-226 | the wait counts only when enough involuntary switches came with it, under its kind's own thresholds and windows |
| RuleEngine.Engine.EvaluateProcessGrowth | src/rules/rule_engine.cpp:125-152 | ignored without a name and a positive pid, evaluated under name and pid otherwise, under its kind's own thresholds and windows |
| RuleEngine.Engine.ForgetProcess | src/rules/rule_engine.cpp:154-156 | removes exactly that process's context |
| RuleEngine.EvaluatedSurvives | src/rules/rule_engine.cpp:102-104 | pruning never removes the target being evaluated, and whatever survives was seen within the time to live |
| RuleEngine.StepSeenFrom | src/rules/rule_engine.cpp:98-123 | seen from a target, another target's evaluation can only prune it |
| RuleEngine.MirrorForget | src/rules/rule_engine.cpp:154-156 | forgetting a target leaves it as if it had never been, and no other target notices |
| RuleEngine.NonInterference | src/rules/rule_engine.cpp:98-156 | in any stream of evaluations and forgets over many targets, a target whose samples come less than the time to live apart is told exactly what it would be told alone, from the beginning or since it was last forgotten |
| EngineCooldown.WarningsSpacedAcrossPruning | src/rules/rule_engine.cpp:332-371 | a Warning is a cooldown after every earlier activation of its target, across pruning and forgets of other targets, unless its own was forgotten in between, if the time to live covers the cooldown |
| EngineCooldown.ForgottenCooldown | src/rules/rule_engine.cpp:332-371 | otherwise three samples of two targets break the cooldown |
| EngineCooldown.CooldownExactly | src/rules/rule_engine.cpp:332-371 | the cooldown holds in every clocked stream of calls if and only if the time to live is at least the cooldown |
| QueueAlarm.QueueAlarm.EvaluateQueue | src/rules/rule_engine.cpp:158-196 | new drops since the last look trigger and block recovery, new critical drops trigger Critical; the totals are remembered |
| QueueAlarm.PercentIsTheFullest | src/rules/rule_engine.cpp:161-169 | the value is the fuller side of the queues in percent; a side without capacity counts as empty |
| QueueAlarm.RecoveryMeansNothingLost | src/rules/rule_engine.cpp:170-190 | when the queue alarm recovers, none of the five drop counters has moved over the last recovery_windows looks |
| QueueAlarm.DropsRaiseTheAlarm | src/rules/rule_engine.cpp:170-190 | new drops leave the alarm raised, except exactly when the queues are also at the critical threshold with too few critical hits so far |
| QueueAlarm.NeverSilentExactly | src/rules/rule_engine.cpp:164-190 | new drops leave the alarm raised in all runs of looks if and only if one critical hit is enough or the critical threshold is above 100 percent |
| Pipeline.OffersKeeps | src/runtime/monitor.cpp:261-279 | pushing a numbered event keeps the lane's order and accounts |
| Pipeline.DispatchesKeeps | src/runtime/event_dispatcher.cpp:50-87 | every step of run, drain_source and dispatch keeps the lane's order and accounts |
| Pipeline.TakeKeepsLane | src/storage/jsonl_event_sink.cpp:261-274 | a sink taking from its queue leaves the lane's order and accounts as they were |
| PipelineRuns.NextKeeps | src/runtime/monitor.cpp:75-124 | every step of every thread, and of the stop sequence, keeps the invariant |
| PipelineRuns.QueuesAreOrdered | src/runtime/monitor.cpp:261-263 | every queue carries strictly increasing sequence numbers, and a sink's queue a selection in order of what its dispatcher consumed |
| PipelineRuns.FanOutConserves | src/runtime/event_dispatcher.cpp:77-87 | consumed times sinks == pushes + counted push failures + what the event in flight has still to be offered to |
| PipelineRuns.NoEventTwice | src/runtime/monitor.cpp:261-279 | no sink ever takes two events of the same number, whichever queues they came by |
| PipelineRuns.NothingIsLeftBehind | src/runtime/monitor.cpp:105-124 | once stopped, every accepted event was consumed exactly once and offered to every sink; each sink took exactly what its queues accepted; every number belongs to an accepted or a refused event |
| EventDispatcher.EventDispatcher.Dispatch | src/runtime/event_dispatcher.cpp:77-87 | every sink's queue is offered the event once, whatever the others did, and takes it exactly when it has room for the event's level; the failures are counted |
| EventDispatcher.EventDispatcher.Poll | src/runtime/event_dispatcher.cpp:60-66 | one turn: nothing when the source is empty, otherwise its oldest event leaves it and goes to every queue |
| EventDispatcher.PolledMoves | src/runtime/event_dispatcher.cpp:60-66 | of a turn: the queues' contents, the counts and the failures add up |
| EventDispatcher.EventDispatcher.DrainSource | src/runtime/event_dispatcher.cpp:70-75 | terminates with exactly the state that turn after turn until empty leads to |
| EventDispatcher.DrainedMoves | src/runtime/event_dispatcher.cpp:70-75 | of a drain: the source ends empty, and every queue got a selection in order of what was in it, the rest counted as refused, once a queue |
| EventDispatcher.EventDispatcher.Run | src/runtime/event_dispatcher.cpp:50-68 | however often it polls before it sees the stop flag, the outcome is that of the drain alone |
| EventDispatcher.DrainedAfterPoll | src/runtime/event_dispatcher.cpp:50-68 | a turn before the drain makes no difference to where it ends |
| EventDispatcher.MovedOn | src/runtime/event_dispatcher.cpp:50-75 | stretches of dispatching compose: selections, counts and failures add up |
| SinkQueues.TakeNext | src/storage/jsonl_event_sink.cpp:260-271 | the worker takes the oldest event of the first non-empty queue after the last one, and nothing only when all are empty |
| SinkQueues.ServedInTime | src/storage/jsonl_event_sink.cpp:260-271 | over consecutive turns, with anything pushed in between, a queue that keeps having something is served within as many turns as there are queues |
| SinkQueues.DrainRound | src/storage/jsonl_event_sink.cpp:281-292 | one round hands over everything that was queued, queue after queue, in order |
| SinkQueues.DrainQueues | src/storage/jsonl_event_sink.cpp:281-293 | the drain terminates with all queues empty, everything that was queued handed over once, in order |
| JsonlSink.JsonlEventSink.OpenNextFile | src/storage/jsonl_event_sink.cpp:318-351 | a new file starts empty of our events; its directory entry is owed a sync unless the file existed; a summary that does not open is one error |
| JsonlSink.JsonlEventSink.SyncCurrent | src/storage/jsonl_event_sink.cpp:460-493 | success exactly when the data and, for a new file, the directory are synced; then the file's events and its entry are durable, and no sync is owed |
| JsonlSink.JsonlEventSink.RequestSync | src/storage/jsonl_event_sink.cpp:450-459 | the limiter stands where all requests so far have left it |
| JsonlSink.JsonlEventSink.FsyncIfAllowed | src/storage/jsonl_event_sink.cpp:440-497 | a critical event moves exactly one of three counters by one: failed when the flush or an admitted sync failed, held back when the limiter refused, synced otherwise, and then everything in the file is durable |
| JsonlSink.JsonlEventSink.RotateIfNeeded | src/storage/jsonl_event_sink.cpp:423-438 | rotates exactly when the file is full: the next file is opened, its size, its owed sync and its summary are as the system answers; changes nothing otherwise |
| JsonlSink.JsonlEventSink.WriteLine | src/storage/jsonl_event_sink.cpp:295-314 | the event is written, or lost with a counted error and the stream closed; what becomes of the summary, and what it costs in errors |
| JsonlSink.SummaryIsLost | src/storage/jsonl_event_sink.cpp:295-351 | after a failed write with the summary open, the next event's file is left without a summary, at the cost of an error, although the system would have opened it |
| JsonlSink.JsonlEventSink.WriteSummary | src/storage/jsonl_event_sink.cpp:353-366 | a failed write closes the summary and is one error; without an open summary nothing happens |
| JsonlSink.JsonlEventSink.WriteEvent | src/storage/jsonl_event_sink.cpp:295-316 | an event is written exactly when a file is or comes open and takes the line, and is counted as an error otherwise; with critical syncs on, synced + failed + held back == Critical events written, over any run; the file is rotated, and counted so, exactly when the event filled it, and the file after it is exactly as opened |
| JsonlSink.SyncsAreLimited | src/storage/jsonl_event_sink.cpp:450-459 | of a sink's own run: at most twice max_fsync_per_minute syncs in any half-open minute |
| FsyncLimiter.AtMostTwicePerMinute | src/storage/jsonl_event_sink.cpp:450-459 | for any requests on a nondecreasing clock, any half-open 60000 ms see at most twice the limit |
| FsyncLimiter.AdmitsExactly | src/storage/jsonl_event_sink.cpp:450-459 | a request passes exactly when its window is a minute old, which starts a new one, or has not had its number yet |
| FsyncLimiter.TwicePerMinuteIsTight | src/storage/jsonl_event_sink.cpp:450-459 | for every limit some run reaches twice the limit |
| MemoryWindow.PushAndTrim | src/runtime/monitor.cpp:387-392 | the deque stays the tail of all samples: sorted, only its front a window old, and nothing needed was trimmed |
| MemoryWindow.FrontAnswers | src/runtime/monitor.cpp:393-396 | the front is the latest sample at least a window old of the whole past, for a positive window; with an empty window nothing is ever reported |
| MemoryWindow.LatestOldIsLatest | src/runtime/monitor.cpp:390-396 | the reference: an old sample with no later old one is the answer |
| MemoryWindow.Extend | src/runtime/monitor.cpp:387-396 | one sample more: trimmed deque, and the base to measure growth from |
| ProcessTracker.ProcessTracker.Introduce | src/runtime/monitor.cpp:363-371 | a pid keeps its state, and its alarm context, only for the same name and start time; otherwise its window, its baseline and its context go, and nobody else's |
| ProcessTracker.ProcessTracker.ExtendWindow | src/runtime/monitor.cpp:386-396 | growth is measured from the latest sample of this instance at least a window old |
| ProcessTracker.ProcessTracker.Report | src/runtime/monitor.cpp:393-399 | the rules are told the growth in megabytes under the instance's name and pid; the context they keep belongs to the running instance |
| ProcessTracker.GrowthInMegabytes | src/runtime/monitor.cpp:393-399 | the value told is the growth in megabytes of 1024 * 1024 bytes, for any growth, under the instance's name and pid |
| ProcessTracker.GrowthMeans | src/runtime/monitor.cpp:390-396 | what is measured is the difference to the latest sample of the instance that is at least a window old |
| ProcessTracker.ProcessTracker.Observe | src/runtime/monitor.cpp:361-402 | one sample: the instance, its window and its alarm context end up as when every sample were kept, in the order forget, extend, evaluate |
| ProcessTracker.ProcessTracker.RecordOne | src/runtime/monitor.cpp:361-402 | one sample's growth and event are appended to those of the scan so far |
| ProcessTracker.ProcessTracker.Sweep | src/runtime/monitor.cpp:403-414 | exactly the instances that are neither live nor uncertain go, with all their state and exactly their alarm contexts |
| ProcessTracker.ProcessTracker.RecordScan | src/runtime/monitor.cpp:348-415 | growths, alarm contexts and published events are exactly those of keeping every sample for ever; after a complete scan nothing is kept of pids neither sampled nor uncertain |
| Framing.ReadSegment | src/storage/network_event_sink.cpp:288-295 | the reading loop is the parse function |
| Framing.SegmentRoundTrip | src/storage/network_event_sink.cpp:288-295 | a segment of records is read back as exactly those records |
| Framing.OnlyRecordsRoundTrip | src/storage/network_event_sink.cpp:261-295 | a line is read back as itself if and only if it is not empty and has one newline, at its end |
| Framing.TornTail | src/storage/network_event_sink.cpp:288-295 | what is there of a torn record at the end is read as a record of its own, beyond the frame |
| Framing.TornThenAppended | src/storage/network_event_sink.cpp:256-267 | a torn append swallows the record that follows it, and no other |
| Framing.AppendsSurviveExactly | src/storage/network_event_sink.cpp:256-267 | the records behind an append survive it if and only if it left nothing or everything |
| JsonText.AppendJsonString | src/storage/event_serializer.cpp:10-41 | appends the escaped string between quotes |
| JsonText.AppendEscaped | src/storage/event_serializer.cpp:130-168 | the loop that to_json_line repeats for the event id escapes the same way |
| JsonText.StringRoundTrip | src/storage/event_serializer.cpp:10-41 | a reader finds the string and its end behind the writer if and only if all its control characters are among the escaped ones |
| JsonText.DoubleFits | src/storage/event_serializer.cpp:52-58 | a formatted value fits the 64-byte buffer exactly within these bounds |
| JsonText.IntReadBack | src/storage/event_serializer.cpp:44-50 | the integer written is read back as that integer |
| JsonText.ThousandthsReadBack | src/storage/event_serializer.cpp:52-58 | a value is read back from its text to the thousandth |
| JsonLine.LineRoundTrip | src/storage/event_serializer.cpp:130-222 | a reader recovers every member of a clean object: names, values, order |
| JsonLine.OneNewline | src/storage/event_serializer.cpp:130-222 | whatever its strings hold, a line has one newline, at its end |
| EventSerializer.ToJsonLine | src/storage/event_serializer.cpp:130-222 | the appended line is the line of the event's members, in order, evidence cut at its count |
| EventSerializer.EveryLineIsARecord | src/storage/event_serializer.cpp:130-222 | for every configuration and event the line is one record of the log; the code writes it when all values fit the buffer, by ToJsonLine |
| EventSerializer.LoggedEventsAreReadBack | src/storage/network_event_sink.cpp:261-295 | a segment of any events' lines is read back as exactly those lines |
| EventSerializer.EventRoundTrip | src/storage/event_serializer.cpp:130-222 | a reader gets every member of a clean event's line back |
| EventReader.TypeReadBack | src/storage/event_serializer.cpp:94-120 | each event type is written as the word that stands for it |
| EventReader.LevelReadBack | src/storage/event_serializer.cpp:68-80 | each level is written as its word, Critical as error |
| EventReader.StatusReadBack | src/storage/event_serializer.cpp:82-92 | each status is written as its word |
| EventReader.EventReadBack | src/storage/event_serializer.cpp:130-222 | a receiver that knows the 25 field names gets the whole event and its device back from a clean event's line, every field with its value, the evidence up to its count |
| EventReader.LinesDetermineEvents | src/storage/event_serializer.cpp:130-222 | clean events with the same line agree in every written field, and their configurations too |
| SchedDelay.BookedAudited | ebpf/bpf/sched_delay.bpf.c:145-188 | whatever becomes of a wait, every key's waits == emitted + residual + lost, in sums and in counts, and the lost records are as many as the drops counted |
| SchedDelay.BookedExactly | ebpf/bpf/sched_delay.bpf.c:145-188 | without aggregation each wait is a record of its own; with it a wait opens its key's aggregate, joins it while it is younger than a window, and otherwise takes all of it out in one record |
| SchedDelay.JoinedAudited | ebpf/bpf/sched_delay.bpf.c:156-178 | a wait that opens or joins its aggregate keeps every key's account |
| SchedDelay.ReportedAudited | ebpf/bpf/sched_delay.bpf.c:181-187 | an aggregate that goes out, into the ring or among the lost, and is cleared keeps every key's account |
| SchedDelay.ReportFaithful | ebpf/bpf/sched_delay.bpf.c:181-185 | a reported record has avg == floor(sum / count) and avg <= max <= sum |
| SchedDelay.FloorBelow | ebpf/bpf/sched_delay.bpf.c:184 | the floor of sum over count stays below the maximum |
| SchedDelay.SchedDelayProgram.EmitEvent | ebpf/bpf/sched_delay.bpf.c:126-143 | a record is submitted, or its drop is counted |
| SchedDelay.SchedDelayProgram.AggregateOrEmit | ebpf/bpf/sched_delay.bpf.c:145-188 | changes the aggregate map, the records and the drop counters exactly as the audited bookkeeping says, field by field |
| SchedDelay.SchedDelayProgram.RecordStart | ebpf/bpf/sched_delay.bpf.c:197-203 | exactly one runnable start is recorded, under its thread, replacing the previous one, if the map takes it, and none otherwise |
| SchedDelay.StartedExactly | ebpf/bpf/sched_delay.bpf.c:197-203 | a start is stored exactly when the kernel takes it and its thread has an entry or the map has room |
| SchedDelay.SchedDelayProgram.UseUp | ebpf/bpf/sched_delay.bpf.c:205-240 | a start is used up by the wait it began, and by no other: each is measured at most once |
| SchedDelay.VerdictExactly | ebpf/bpf/sched_delay.bpf.c:212-238 | a wait is measured exactly when it is long enough and on the lists in force; long enough and refused by a list is a stale hit |
| SchedDelay.SchedDelayProgram.Measure | ebpf/bpf/sched_delay.bpf.c:212-238 | a wait is booked exactly when it passes the filters, a refusal by an allow list is a stale hit, and the accounts stay audited |
| SchedDelay.SchedDelayProgram.EndWait | ebpf/bpf/sched_delay.bpf.c:205-240 | the start is used up on every filter path, and the wait is measured from exactly that start |
| SchedDelay.SchedDelayProgram.OnSchedSwitch | ebpf/bpf/sched_delay.bpf.c:190-241 | records the start before it looks the next thread up, ends that thread's wait, and keeps every account over any sequence of switches |
| SchedDelay.SwitchFits | ebpf/bpf/sched_delay.bpf.c:190-241 | a switch leaves both maps within their capacities |
| SchedDelay.SchedDelayProgram.OnExec | ebpf/bpf/sched_delay.bpf.c:243-256 | an exec is counted exactly when the lifecycle is watched |
| SchedDelay.SchedDelayProgram.OnExit | ebpf/bpf/sched_delay.bpf.c:258-277 | an exiting thread leaves the allow lists and the start map; its aggregate stays accounted for |
| Ipv4.ValidIpv4 | src/core/config.cpp:138-158 | true exactly for four dot-separated decimal octets up to 255, leading zeros included |
| Ipv4.OctetsUpTo255 | src/core/config.cpp:146-152 | a decimal number is an octet up to 255 and no further, whatever zeros stand in front |
| ConfigLimits.MonitorConfig.Validate | src/core/config.cpp:311-494 | true exactly when the clients are addresses and critical <= warning for memory; then every field is clamped; otherwise every later field is untouched |
| ConfigLimits.AcceptedIsInRange | src/core/config.cpp:311-494 | an accepted configuration satisfies every bound the loops rely on |
| ConfigLimits.NoFurtherThanNeeded | src/core/config.cpp:311-494 | no setting is moved further than it has to be: none in range, next to the same neighbours, lies closer; the settings with a default of their own get it, and keep a value that is in order |
| ConfigLimits.UnchangedExactly | src/core/config.cpp:311-494 | validation changes nothing if and only if everything is in range already |
| ConfigLimits.IdempotentExactly | src/core/config.cpp:398-409 | a second validation changes something if and only if both refresh intervals were zero and the slow interval is not |
| ValidatedLoops.AcceptedBackoff | src/core/config.cpp:475-486 | an accepted configuration gives 1 <= base <= max and a batch of at least one; the delays double up to the cap if and only if it is below 2^31 |
| ValidatedLoops.AcceptedReserve | src/core/config.cpp:358-363 | a ring of accepted size keeps back exactly the accepted number of slots |

## Left out

- NetworkSink.NetworkEventSink.LoadWal: order and the invariant are claimed for indices below 10^6 only, because beyond that the code's name sort is not the numeric one; that nothing is lost needs no limit. A load whose listing or reading was cut short by an error has fewer records pending, as in the code.
- NetworkSink.NetworkEventSink.Shutdown: asks for a batch of at least one record, or that nothing is pending or queued, which is exactly when the final loop is sure to end (SinkRuns.FlushingEndsExactly); an accepted configuration has such a batch.
- NetworkSink.NetworkEventSink.FlushPending: sockets, DNS, HTTP and its timeouts are one answer, a parameter that may be either.
- WalFilesystem.Filesystem.Append: a failed append leaves whole lines; torn ones are the subject of Framing, not of the disk.
- WalNames.NameRoundTrip: file names that the sink did not make (a sign, spaces, several underscores) are only read by the digits after the last underscore, without the variants that std::stoull accepts.
- EventSerializer.ToJsonLine: values are given in thousandths, so the rounding of doubles, negative zero, infinities and NaN are not modelled; values that do not fit append_double's buffer are excluded.
- EventSerializer.EveryLineIsARecord: speaks of the line that the model defines for every event; the code writes that line when the values fit append_double's buffer, and other values are excluded by ToJsonLine.
- JsonText.StringRoundTrip: the reader knows no \u escapes, which the writer never produces; characters stand for bytes.
- RingProtocol.RingIsAFifo: atomic steps are sequentially consistent, which is fair for indices with one writer, released and acquired; weaker behaviours of the memory model are not modelled.
- Pipeline.DispatchesKeeps: a pop that finds the source empty is exact; a stale empty answer while the producer is active would only delay the dispatcher.
- SchedDelay.SchedDelayProgram.OnSchedSwitch: handlers run one after the other; several processors on one key, 64-bit overflow and updates of the allow lists by user space are not modelled.
- JsonlSink.JsonlEventSink.WriteEvent: the platform is Linux, and what the system answers is a parameter; the summary's text and the cache limit that removes old files are left out.
- ProcessTracker.ProcessTracker.RecordScan: CPU percentages and metrics are left out.
- The path stored with each pending record, which nothing reads, and temporary files' names, which loading never lists.
- The wrap-around of 64-bit counters and of the 32-bit hit counters: they are natural numbers. The one 64-bit subtraction that may see an earlier clock is modelled in AlarmRule.
- The four maps of alarm contexts are one map with keys of four kinds; the memory and self-RSS rules are the plain threshold rule in either direction.
- Promptness of shutdown: Monitor::stop notifies without holding the mutex, so a collector may sleep until its next deadline.
- Event fields, evidence keys, metrics rendering, collectors, /proc parsing, INI parsing, log levels and the other text settings of the configuration, thread affinity, the status page: plumbing or easy members.
