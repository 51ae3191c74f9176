# BMCU verification model

Dafny proofs about the durable telemetry transport and the safety-relevant logic of the BMCU
firmware and its Pico gateway. Each module models one component in the form the component has
(classes with fields, loops over buffers, pure functions) and proves the property the component
exists for, over every input, every run or every reachable state.

| modules | what they model |
|---|---|
| `OutboxModel`, `OutboxTiling`, `OutboxDrain`, `OutboxJournal`, `OutboxContent`, `Outboxes` | the outbox that hands out one global sequence: value model, tiling of all numbers, freedom from deadlock, what the journal is told, what the peer reads, and the class over its rings |
| `ByteRings` | the fixed-slot circular store under every queue |
| `Replay`, `Journal`, `JournalStore`, `Survival` | replay of earlier boots with synthesized loss markers; the append-only journal, its torn-tail recovery and its stager; its segments, commits and pruning; which queued records outlive a power loss and which acknowledged ones stay gone |
| `Bmb1Codec`, `StreamParsing`, `HelloCodec` | the BMB1 wire format, its bounded stream parser, HELLO, its transcript and TLVs |
| `LinkDecoder`, `PrinterParsers`, `Crc` | the link frame decoder, the two printer-bus parsers and the fast checksums with their literal tables |
| `FlashLog`, `BootSession` | the wear-levelled state log and the crash-safe boot identifiers |
| `OnlineDetect`, `ServiceWatch` | the two policies on wrapping 32-bit ticks, against true time |
| `AmsMotion`, `PullBack`, `PrinterLoop`, `MotorDrive` | the printer's motion commands with the recorded channel, the pull-back watchdog and command switch, the main loop over all four channels, and what reaches the motor |
| `DmaUart` | the self-wrapping DMA receive ring |
| `Options`, `Arithmetic`, `Bytes` | shared helpers |

A class method is proved equal to a step function of the old state; what the source promises is
proved about those functions. The step functions take the source's branches in the source's order,
error paths included, and bounded integers wrap where the source's do.

## Promises that do not hold as stated

The code is modelled as it is. Where a promise fails, one lemma gives a failing case and another
the condition under which the promise holds, as an if-and-only-if.

- A producer can lose a sequence number. `enqueue_raw` and `enqueue_link_state` allocate before they
  encode and do not catch the encoder's error: a link index outside one byte
  (`OutboxTiling.WideLinkLosesNumber`) or a wire frame above 4086 bytes (`OutboxTiling.LongFrameLosesNumber`)
  leaves an allocated number that nothing accounts for. A STATUS under such a link index is stored and
  fails later, in `peek` (`OutboxTiling.ParkedStatusLosesNumber`); a loss record passed through
  `enqueue_payload` may claim numbers of others. `OutboxTiling.StepTiles` gives the if-and-only-if.
- The outbox does not always drain (`OutboxDrain.DrainsIffClean`). A journal record with a reserved flag
  bit stops the replay (`OutboxDrain.ReservedFlagStalls`), and so does one under the current boot number
  (`OutboxDrain.ReusedBootStalls`). `pico/main.py` opens the cursor before this boot's journal, so such a
  record is left from an earlier run with the same number: the boot files were lost, and the number drawn
  at random repeats.
- A queued record can look acknowledged to the next boot: an ACK is recorded whatever numbers it names,
  also those not allocated yet. `OutboxJournal.StepStaysBehind` gives the if-and-only-if for one call,
  `OutboxJournal.RepeatedBootHidesRecord` a session.
- A record written to the journal is not yet safe (`JournalStore.FlushedCanBeLost`): only a commit makes
  it durable. `Survival.QueuedOutlivesPower` says exactly which queued records outlive a power loss.
- After a partial journal write, what is flushed to the same segment does not come back, because the
  record is written again behind its own beginning: `Journal.PartialFlushHidesTheRest` gives the
  if-and-only-if, `Journal.RetryIsLost` a family of cases.
- A single power loss can lose the recorded channel, even in a log with no half-written slot, one lap
  after a half-written slot was repaired in mid-page. `FlashLog.PowerLossReadsIff` says exactly when a
  boot reads the old or the new value, `FlashLog.LapAfterRepairForgets` and `FlashLog.SomeLapForgets`
  give runs from a blank flash that read neither.
- A latched pull fault does not keep the motor still, and neither does a bus error: the automatic unload
  and the manual pull drive it past the commanded motion. `MotorDrive.FaultStillPulls` is a case,
  `MotorDrive.StoppedIsDrivenIff` and `MotorDrive.FaultLeavesOnlyManual` give the condition, and
  `MotorDrive.ManualPullNeverEnds` shows that nothing watches the manual pull.
- The pull-back has no time bound while bus errors or bad readings keep restarting its watch.
  `PullBack.StalledPullsIff` says exactly when a stalled one goes on, `PullBack.ErrorsRestartTheWatch`
  gives such runs of any length, and `PullBack.PullEndsOnceQuiet` the bound from the last disturbance.
- A silence can go unseen when a poll comes so late that the wrapped age is back below its threshold.
  `OnlineDetect.RunIsPromptIff` gives the condition on the poll times, `OnlineDetect.SlowPollMissesSilence`
  a run.
- The service watch loses time when a poll comes so late that ticks and carry reach 2^32:
  `ServiceWatch.RunIsExactIff` gives the condition, `ServiceWatch.LatePollLosesTime` a case.
- A stored byte that is no channel keeps every channel out of use until a feed or a release
  (`AmsMotion.StrayEndsIff`, `AmsMotion.StrayByteLocksOut`).
- A use command that is held at tick 0 does not start its wait (`AmsMotion.RepeatedUseIff`), and a motion whose
  deadline falls on tick 0 has none (`MotorDrive.UncommandedMotionEnds`); both give the exact condition.
- Boot identifiers start again at 1 after the last 64-bit value (`BootSession.IncreasesIffRoom`).
- The link decoder's comment describes bytes discarded as noise; its oversize branch is unreachable, so
  `discarded_bytes` stays zero (`LinkDecoder.ChunkIndependence`).

## Model

| member | source | states |
|---|---|---|
| `OutboxTiling.StepTiles` | pico/bmcu_binary_outbox.py:48-318 | One call of any producer, `peek` or `acknowledge`, with any arguments, keeps the tiling if and only if the call is one that accounts for the number it allocates; the failing family (an encoder error after allocation) is named by the guard that fails |
| `OutboxTiling.WideLinkLosesNumber` | pico/bmcu_binary_outbox.py:122-130 | From a new outbox, an event frame under link 256 raises and leaves number 1 allocated, with no live record and no pending loss |
| `OutboxTiling.LongFrameLosesNumber` | pico/bmcu_binary_outbox.py:122-130 | So does a frame above 4086 bytes, from any link |
| `OutboxTiling.ParkedStatusLosesNumber` | pico/bmcu_binary_outbox.py:102-121 | A short STATUS under link 256 raises after it is parked; the next `peek` takes number 1 for it and raises |
| `OutboxTiling.RunsTile` | pico/bmcu_binary_outbox.py:48-318 | After any run of well-formed calls the merged rings tile the numbers from the frontier, folded over the ACKs of the run, to the next one: disjoint, gap-free, a loss marker covering its whole range |
| `OutboxTiling.EveryNumberAccounted` | pico/bmcu_binary_outbox.py:48-318 | In a tiled outbox every number is below the frontier, inside the one pending loss, or owned by exactly one queued record |
| `OutboxTiling.NothingIsLostSilently` | pico/bmcu_binary_outbox.py:48-318 | From a new outbox, after any run, every number ever allocated belonged to a live record whose header number a call of the run acknowledged for the current boot, is inside the pending loss, or is owned by exactly one live record |
| `OutboxTiling.ReleasedWasAcked` | pico/bmcu_binary_outbox.py:222-245 | Every number the frontier passes in a run belonged to a live record whose header number was at or below the watermark of an ACK of that run for the current boot, in the queue as it then was |
| `OutboxTiling.FrontierStopsAtWatermark` | pico/bmcu_binary_outbox.py:222-245 | An ACK moves the frontier at most one past its watermark, unless the watermark falls inside the range of a loss marker, which is then released whole |
| `OutboxTiling.NoAckNoRelease` | pico/bmcu_binary_outbox.py:222-245 | A run without an ACK for the current boot leaves the frontier where it was |
| `OutboxTiling.ChainPartitions` | pico/bmcu_binary_outbox.py:77-97 | In a tiled queue each number in range belongs to exactly one record, loss markers included |
| `OutboxTiling.InitiallySound` | pico/bmcu_binary_outbox.py:20-46 | A new outbox is tiled, with nothing allocated |
| `OutboxTiling.ReserveTiles` | pico/bmcu_binary_outbox.py:55-68 | Extending the pending loss keeps its bounds exact and ends it at the last allocated number |
| `OutboxTiling.AdmitTiles` | pico/bmcu_binary_outbox.py:122-137 | Allocate, encode, store or start a loss keeps the tiling exactly when the encoder does not raise and a stored message claims no other number than its own |
| `OutboxTiling.StatusTiles` | pico/bmcu_binary_outbox.py:102-121 | An oversized STATUS takes a loss number, any other allocates nothing; the path stays sound exactly when what it parks can later be written, that is, under a link index of one byte |
| `OutboxTiling.RawTiles` | pico/bmcu_binary_outbox.py:99-147 | `enqueue_raw` keeps the tiling if and only if a loss is already pending or its frame, link index and number can be encoded |
| `OutboxTiling.StateTiles` | pico/bmcu_binary_outbox.py:263-286 | The same condition for `enqueue_link_state` |
| `OutboxTiling.PayloadTiles` | pico/bmcu_binary_outbox.py:288-318 | `enqueue_payload` turns its own encoding errors into a loss, so exactly two calls break it: a valid record numbered beyond 64 bits, and a caller's own loss record that is stored and claims other numbers |
| `OutboxTiling.DropWritable` | pico/bmcu_binary.py:78-89 | The bounds check of the loss marker never fires on a pending loss; only a count or number too wide for its field stops it |
| `OutboxTiling.MaterializeDropTiles` | pico/bmcu_binary_outbox.py:149-175 | A pending loss becomes one queued marker whenever the durable ring has a slot, and the queue grows by exactly one record |
| `OutboxTiling.PeekTiles` | pico/bmcu_binary_outbox.py:216-220 | `peek` keeps the tiling unless it has to number a STATUS beyond 64 bits; a marker that cannot be written leaves the loss pending |
| `OutboxTiling.PeekRaisesIff` | pico/bmcu_binary_outbox.py:149-220 | `peek` raises if and only if it has to write a loss or a STATUS whose number or count no longer fits its field |
| `OutboxTiling.PeekIsLeast` | pico/bmcu_binary_outbox.py:195-210 | The live record offered is the one with the least number in both rings |
| `OutboxTiling.AckIsExact` | pico/bmcu_binary_outbox.py:222-245 | An ACK for the current boot removes exactly the live records up to the watermark from both rings and keeps the rest in order; allocation, loss and STATUS are untouched |
| `OutboxTiling.AckTiles` | pico/bmcu_binary_outbox.py:222-245 | Any ACK, for any boot and watermark, keeps the tiling from its new frontier |
| `OutboxTiling.MergeCounts` | pico/bmcu_binary_outbox.py:198-204 | The merge used by `peek` and `acknowledge` holds each record of both rings exactly once |
| `OutboxTiling.OneSequencePerCall` | pico/bmcu_binary_outbox.py:48-53 | No call allocates more than one number |
| `OutboxDrain.PeekNothingIff` | pico/bmcu_binary_outbox.py:206-220 | `peek` returns nothing if and only if no live record, pending loss, coalesced STATUS or replayed record is queued and the history is used up or blocked at a record the outbox refuses |
| `OutboxDrain.PeekNothingMeansEmpty` | pico/bmcu_binary_outbox.py:206-220 | With a clean history that is exactly when nothing at all is left to deliver |
| `OutboxDrain.DeliverMakesProgress` | pico/bmcu_binary_outbox.py:216-245 | One peek and the ACK of what it offered removes exactly one message of what is left |
| `OutboxDrain.Drains` | pico/bmcu_binary_outbox.py:149-245 | With no new input, exactly as many deliveries as there are messages empty the outbox |
| `OutboxDrain.DrainsIffClean` | pico/bmcu_binary_outbox.py:206-261 | Peek-then-ACK ever empties the outbox if and only if every journal record still to replay has known flags and belongs to an earlier boot |
| `OutboxDrain.UncleanNeverDrains` | pico/bmcu_binary_outbox.py:222-261 | Otherwise no number of deliveries does |
| `OutboxDrain.OwnBootReplayIsStuck` | pico/bmcu_binary_outbox.py:222-245 | A replayed record of the current boot survives every call: no ACK reaches it |
| `OutboxDrain.UnknownFlagIsStuck` | pico/bmcu_binary_outbox.py:247-261 | A journal record with a reserved flag bit stops the replay cursor for good |
| `OutboxDrain.ReservedFlagStalls` | pico/bmcu_binary_outbox.py:247-261 | A new outbox over a journal of one record with a reserved flag bit is never empty after any number of deliveries |
| `OutboxDrain.ReusedBootStalls` | pico/bmcu_binary_outbox.py:222-245 | Nor is one over a journal of one record under its own boot number |
| `OutboxDrain.LossIsAnnounced` | pico/bmcu_binary_outbox.py:77-97 | `peek` turns a pending loss into a queued marker of its exact range if and only if a durable slot is free, and with more than one durable slot and no marker queued one always is: ordinary records never take the last |
| `Outboxes.Outbox.Restore` | pico/bmcu_binary_outbox.py:247-261 | The method over the five rings refuses exactly reserved flags, a payload too long or a full slot, and otherwise stores bytes that parse to the record with the REPLAY flag set and nothing else changed; nothing else in the outbox changes |
| `Outboxes.Outbox.AppendMessage` | pico/bmcu_binary_outbox.py:77-97 | The method over the five rings routes by size and keeps the last durable slot for markers; nothing else in the outbox changes |
| `Outboxes.Outbox.AdmitMessage` | pico/bmcu_binary_outbox.py:122-137 | The method over the five rings allocates before it encodes, turns a refused record into a loss that reuses its number, and tells whether it stored the record; nothing else in the outbox changes |
| `Outboxes.Outbox.EnqueueStatus` | pico/bmcu_binary_outbox.py:102-121 | The method over the five rings replaces the STATUS of its link and counts the replacement; nothing else in the outbox changes |
| `Outboxes.Outbox.EnqueueRaw` | pico/bmcu_binary_outbox.py:99-147 | The method over the five rings is the specified step, whose record parses to the given time and wire bytes (`OutboxContent.RawIsQueuedIff`); the journal is told of the record exactly if it was stored, and a refusal by the journal is counted; nothing else in the outbox changes |
| `Outboxes.Outbox.EnqueueLinkState` | pico/bmcu_binary_outbox.py:263-286 | The method over the five rings is the specified step, critical exactly for offline and incompatible links, and stages as specified; nothing else in the outbox changes |
| `Outboxes.Outbox.EnqueuePayload` | pico/bmcu_binary_outbox.py:288-318 | The method over the five rings is the specified step, and stages the payload only when asked to; nothing else in the outbox changes |
| `Outboxes.Outbox.MaterializeDrop` | pico/bmcu_binary_outbox.py:149-175 | The method over the five rings is the specified step, raising exactly when the marker cannot be written, staging the marker it stores and telling whether it stored one; nothing else in the outbox changes |
| `Outboxes.Outbox.MaterializeStatus` | pico/bmcu_binary_outbox.py:177-192 | The method over the five rings is the specified step; nothing else in the outbox changes |
| `Outboxes.Outbox.Peek` | pico/bmcu_binary_outbox.py:216-220 | The method over the five rings announces and stages a loss, pages, materialises STATUS and offers the head, as specified; nothing else in the outbox changes |
| `Outboxes.Outbox.Acknowledge` | pico/bmcu_binary_outbox.py:222-245 | The method over the five rings releases and returns how many, tells the journal the watermark, notes it and pages, as specified; nothing else in the outbox changes |
| `Outboxes.Outbox.constructor` | pico/bmcu_binary_outbox.py:20-46 | Builds the empty specified state over five disjoint rings |
| `Outboxes.JournalReplayCursor.PageInto` | pico/bmcu_journal.py:408-441 | The paging loop over the ring equals the specified prefix of replay items, returns how many it moved and terminates for any limit |
| `OutboxJournal.QueuedStaysUnacked` | pico/bmcu_binary_outbox.py:99-318 | At the end of any run from a new outbox without an early ACK, every queued record meant to be kept was offered to the journal by exactly one call, with the content of its bytes, and its number is above every recorded watermark |
| `OutboxJournal.StagedExactlyOnce` | pico/bmcu_binary_outbox.py:99-318 | With or without early ACKs, a queued record meant to be kept was staged by exactly one call of the run |
| `OutboxJournal.EveryRecordIsStaged` | pico/bmcu_binary_outbox.py:138-147 | A record queued at the end of a run was there at the start, is a STATUS or an unjournaled payload, or was staged with the fields of its bytes |
| `OutboxJournal.RunAscends` | pico/bmcu_binary_outbox.py:138-147 | The journal sees the numbers of a run in strictly increasing order, markers included |
| `OutboxJournal.StepStaysBehind` | pico/bmcu_binary_outbox.py:222-245 | A call keeps every queued and future number above the recorded watermark if and only if it is not an ACK of numbers no queued record has had yet |
| `OutboxJournal.MarkIsMaximum` | pico/bmcu_journal.py:302-306 | The recorded watermark of a boot is the largest of its ACKs, or what was on record before |
| `OutboxJournal.RepeatedBootHidesRecord` | pico/bambuddy_binary_tcp.py:230-234 | A HELLO answer that names a watermark held for an earlier use of the boot number makes the next record of the session look acknowledged |
| `OutboxJournal.RawInStep` | pico/bmcu_binary_outbox.py:99-147 | `enqueue_raw` puts a record in a ring exactly when it tells the journal, and with the same content |
| `OutboxJournal.StateInStep` | pico/bmcu_binary_outbox.py:263-286 | So does `enqueue_link_state` |
| `OutboxJournal.PayloadInStep` | pico/bmcu_binary_outbox.py:288-318 | So does `enqueue_payload` when asked to; otherwise it tells the journal nothing |
| `OutboxJournal.DropInStep` | pico/bmcu_binary_outbox.py:149-175 | So does the announcement of a loss |
| `OutboxContent.EveryOfferIsGenuine` | pico/bmcu_binary_outbox.py:99-261 | From a new outbox, after any run: whatever the next `peek` offers is one whole message of this boot under its own number that parses to what a call of the run was given (time, wire bytes, link, state, reason, payload, flags), or reads as a record of the history with the REPLAY flag set; every parked STATUS and every snapshot reads as the newest of its link |
| `OutboxContent.RawIsQueuedIff` | pico/bmcu_binary_outbox.py:122-147 | With no loss pending, `enqueue_raw` queues a message that parses to the given time and wire bytes, starts a loss at that number, or raises, exactly by link index, frame size and free slots |
| `OutboxContent.StateIsQueuedIff` | pico/bmcu_binary_outbox.py:263-286 | The same for `enqueue_link_state`, critical exactly for offline and incompatible |
| `OutboxContent.PayloadIsQueuedIff` | pico/bmcu_binary_outbox.py:288-318 | The same for `enqueue_payload`, whose own encoding errors become a loss |
| `OutboxContent.PendingLossGrows` | pico/bmcu_binary_outbox.py:55-68 | While a loss is pending every producer but STATUS adds its number and its time to it and stores and stages nothing |
| `OutboxContent.StagedSays` | pico/bmcu_binary_outbox.py:138-175 | What is staged for the journal parses to what the call was given, under its number and time; a staged loss is the pending one |
| `OutboxContent.DropSays` | pico/bmcu_binary_outbox.py:149-175 | The marker of a loss parses to exactly the pending range, its count and the time of its latest number |
| `OutboxContent.StatusSays` | pico/bmcu_binary_outbox.py:177-192 | The STATUS that `peek` numbers parses to the time and wire bytes of the newest call for its link |
| `OutboxContent.RestoredReads` | pico/bmcu_binary_outbox.py:247-261 | A journal record is restored if and only if its flags are known and its payload fits, and what is stored parses to its kind, number, boot, link and payload, with bit 0 of the flags set and the others as they were |
| `OutboxContent.PagedRecordsRead` | pico/bmcu_journal.py:408-441 | A page adds only records that parse so to the items that were next, in order |
| `OutboxContent.ReplacementsCount` | pico/bmcu_binary_outbox.py:102-121 | A STATUS counts as a replacement exactly if one of its link was waiting |
| `OutboxContent.LastAckIsMaximum` | pico/bmcu_binary_outbox.py:222-245 | After any run the reported watermark is the largest ACK for the own boot |
| `Survival.QueuedOutlivesPower` | pico/bmcu_journal.py:244-306 | After any run of calls, flushes and commits from the start of the program, partial writes and failing commits included, without an early ACK: a queued record meant to be kept is found and restored by the next boot after every possible power loss if and only if it was staged, flushed whole, committed and not pruned |
| `Survival.CommittedIsRestored` | pico/bmcu_journal.py:310-441 | A committed record above the watermark on file is among what the next boot's cursor restores, with the content of the queued bytes, after a power loss at any byte |
| `Survival.UncommittedIsLost` | pico/bmcu_journal.py:247-300 | Any other is not, if the power loss takes everything behind the last commit |
| `Survival.RunStaysCommitted` | pico/bmcu_journal.py:247-300 | Over any run in which commits go through, fewer than `commit_bytes` bytes are ever uncommitted |
| `Survival.RunLinks` | pico/bmcu_journal.py:150-306 | Over any run the journal holds only records it was told of, in ascending order, its watermarks are those of the ACKs, and those on file are no higher |
| `Survival.FlushThins` | pico/bmcu_journal.py:180-286 | A flush may lose records, to pruning or behind a torn write, but never adds or reorders any |
| `Survival.CommittedIsOfferedAgain` | pico/bmcu_binary_outbox.py:99-318 | From a producer's call to the next boot: a queued record to be kept parses to what a call was given, and once committed every possible power loss leaves the same message in the next boot's replay, under its own number, with the REPLAY flag and nothing else changed |
| `Survival.AckedStaysGone` | pico/bmcu_journal.py:288-306 | What was acknowledged before a commit that went through is never replayed again: after any later run and any power loss the next boot restores nothing of that boot at or below the number, unless eight higher boots have their watermarks on file |
| `Survival.StaysCovered` | pico/bmcu_journal.py:468-493 | Once the watermark file covers an acknowledged number it does so at every later time |
| `ByteRings.ByteRing.Append` | pico/byte_ring.py:54-73 | The circular store refines an abstract queue: refused, replaced in place under its key, or added at the end, byte for byte, with no other record disturbed |
| `ByteRings.ByteRing.AppendEvictAcked` | pico/byte_ring.py:75-93 | Room is made only by dropping an acknowledged, unprotected head; otherwise the queue is as `append` leaves it |
| `ByteRings.ByteRing.ReleaseThrough` | pico/byte_ring.py:104-113 | Releases exactly the longest covered prefix and counts it |
| `ByteRings.ByteRing.ReleaseOne` | pico/byte_ring.py:115-123 | Releases the head if there is one |
| `ByteRings.ByteRing.Peek` | pico/byte_ring.py:95-102 | Returns the oldest record of the abstract queue with its own bytes |
| `ByteRings.ByteRing.Records` | pico/byte_ring.py:125-131 | Iteration yields the abstract queue, oldest first |
| `ByteRings.ByteRing.CopyInto` | pico/byte_ring.py:41-46 | Writing one slot of the flat storage leaves the bytes and lengths of all others; data longer than a slot is refused and changes nothing |
| `ByteRings.AppendKeepsKeysDistinct` | pico/byte_ring.py:54-73 | No replace key is ever stored twice |
| `ByteRings.LatestPerKey` | pico/byte_ring.py:54-73 | After an accepted append the record is the only one of its key, and no other key is affected |
| `ByteRings.ReleasesPrefix` | pico/byte_ring.py:104-113 | What remains is a suffix whose head is above the watermark; everything dropped was covered |
| `Replay.ReplayTiles` | pico/bmcu_journal.py:408-441 | For each boot, restored records and synthesized loss ranges tile its numbers in increasing order from the expected one, without gap or overlap |
| `Replay.MarkersAreExact` | pico/bmcu_journal.py:419-432 | Every item is a record of the journal as it stands, or a synthesized marker whose bytes declare exactly the range it accounts for, below a record of its boot |
| `Replay.FilledHoleReads` | pico/bmcu_journal.py:419-432 | A synthesized marker parses back to its first and last number, the count and the reason |
| `Replay.PageMovesPrefix` | pico/bmcu_journal.py:408-441 | Any call moves a prefix of the remaining items, in order and byte-exact, into the ring, and stops early only at an item the outbox refuses |
| `Replay.ItemsStep` | pico/bmcu_journal.py:416-440 | The cursor emits each item once: skipping covered records changes nothing, emitting removes the first |
| `Replay.ReplayCovers` | pico/bmcu_journal.py:433-440 | Every unacknowledged record of an allowed boot lies inside the tiled range |
| `Replay.RangesAreTight` | pico/bmcu_journal.py:339-357 | The announced range of each boot starts and ends at an unacknowledged record of the journal, covers them all, and no boot is announced twice |
| `Replay.ReplayOfBoot` | pico/bmcu_journal.py:363-441 | From a scan of the journal to the end of replay, as long as no segment is removed in between: the tiling starts at the announced oldest number, above the watermark, ends right behind the announced newest, and covers every unacknowledged record |
| `Replay.ReplayAfterPruning` | pico/bmcu_journal.py:379-441 | If segments are pruned before the cursor reads them, the tiling of a boot still starts at its announced oldest number and covers every record that is left; only numbers behind the last of these are uncovered |
| `Replay.LastBootIsReplayed` | pico/bmcu_journal.py:339-441 | A boot whose records come last in the journal, in ascending order, is among the boots replayed, and each of its records above the watermark on file is restored as it stands |
| `Replay.LastSevenAreReplayed` | pico/bmcu_journal.py:363-377 | Of the boots with unacknowledged history the cursor takes exactly the last seven in the journal |
| `Replay.AckedIsNotReplayed` | pico/bmcu_journal.py:339-441 | The cursor restores nothing at or below the watermark on file |
| `Replay.EmitsEvery` | pico/bmcu_journal.py:408-441 | From a cursor that expects no more than the first of a boot's ascending records, every one of them is restored as it stands |
| `Journal.TornTail` | pico/bmcu_journal.py:125-147 | Records cut at any byte yield exactly the longest prefix lying wholly before the cut; bytes appended behind the cut remove or alter none of them |
| `Journal.SegmentTornTail` | pico/bmcu_journal.py:125-147 | The same for a whole segment: a cut inside the header makes it unreadable, any other cut gives the header and exactly that prefix |
| `Journal.RecoveredIsWritten` | pico/bmcu_journal.py:125-147 | Recovery invents nothing: re-encoding what it yields gives the first bytes of the file |
| `Journal.TornWriteCostsItsRecord` | pico/bmcu_journal.py:111-122 | Of a file that keeps every byte written, with whole flushes so far, a write that stops at any byte costs no record but its own |
| `Journal.PartialFlushHidesTheRest` | pico/bmcu_journal.py:111-122 | After a partial write of one byte or more the records before it stay recoverable, and anything behind them is recovered if and only if the torn beginning and later bytes pass together for a record; that record, and not the one written again, is then what comes back |
| `Journal.RetryIsLost` | pico/bmcu_journal.py:111-122 | For every checksum, a write cut after its length field hides the retry of a flagged or linked record and all that follows in the segment |
| `Journal.WholeBeforeIsLongest` | pico/bmcu_journal.py:129-147 | The prefix count is maximal: the next record does not fit before the cut |
| `Journal.ParseEncoded` | pico/bmcu_journal.py:54-85 | A written record parses back whatever follows it, for every checksum function |
| `Journal.ParseInverts` | pico/bmcu_journal.py:68-85 | Bytes accepted as a record are exactly the bytes the writer produces for it |
| `Journal.ParseCut` | pico/bmcu_journal.py:68-76 | A cut record is reported as incomplete, never as a record or as corrupt |
| `Journal.HeaderRoundTrip` | pico/bmcu_journal.py:32-51 | A written segment header parses back whatever follows it |
| `Journal.WriteRecord` | pico/bmcu_journal.py:54-65 | Fills exactly the record bytes of the caller's buffer, or raises and leaves it untouched |
| `Journal.RecoverRecords` | pico/bmcu_journal.py:125-147 | The two-reads-per-record loop with its scratch buffer computes the recovery of the whole file |
| `Journal.JournalStager.Stage` | pico/bmcu_journal.py:96-109 | An ordinary record never takes the last slot; a critical one is refused only when the ring is full; accepted records keep their order |
| `Journal.JournalStager.FlushOne` | pico/bmcu_journal.py:111-122 | The file grows by the oldest staged record; a partial write keeps the record staged and leaves its beginning in the file |
| `JournalStore.CrashKeepsCommitted` | pico/bmcu_journal.py:247-300 | After a power loss at any byte between the last commit and the last write, recovery gives the earlier boots, every closed segment, and of the open one at least the committed and at most the written records, in order; the records at risk take exactly the uncommitted bytes |
| `JournalStore.FlushStaysCommitted` | pico/bmcu_journal.py:247-286 | A flush leaves fewer than `commit_bytes` bytes uncommitted if and only if the commit it may need goes through; one that does not raise always does |
| `JournalStore.FlushedCanBeLost` | pico/bmcu_journal.py:247-286 | A record staged and flushed whole into a fresh segment can still be gone after a power loss |
| `JournalStore.CutHistory` | pico/bmcu_journal.py:125-147 | Cut anywhere, a segment whose torn tail does not pass for a record gives exactly the records wholly before the cut |
| `JournalStore.NewestKeeps` | pico/bmcu_journal.py:468-473 | The watermark file holds what is in memory, at most eight boots, all of them if there are no more, and leaves a boot out only for eight higher ones |
| `JournalStore.CommitIsSaved` | pico/bmcu_journal.py:288-300 | A commit that does not raise leaves the watermarks in memory on file, in that sense |
| `JournalStore.CommitRaisesIff` | pico/bmcu_journal.py:288-300 | A commit raises if and only if one of its two writes is needed and fails |
| `JournalStore.StagedIff` | pico/bmcu_journal.py:96-109 | A record is staged if and only if its payload fits and a slot is free, the last of several being for critical records |
| `JournalStore.StagingKeepsReserve` | pico/bmcu_journal.py:96-109 | If all slots are taken, a critical record is among them |
| `JournalStore.BMJ1Journal.constructor` | pico/bmcu_journal.py:153-242 | Opens a segment over the files that are there, prunes, and holds nothing uncommitted |
| `JournalStore.BMJ1Journal.Stage` | pico/bmcu_journal.py:244-245 | Stages the record exactly when the stager accepts it |
| `JournalStore.BMJ1Journal.RecordAck` | pico/bmcu_journal.py:302-306 | Raises the watermark of the boot, never lowers it, and marks the checkpoint |
| `JournalStore.BMJ1Journal.Commit` | pico/bmcu_journal.py:288-300 | Makes the written bytes durable and then the watermarks, or raises where a write fails; if it does not raise, the file holds the watermarks in memory, a boot being left out only for eight higher ones |
| `JournalStore.BMJ1Journal.Rotate` | pico/bmcu_journal.py:180-286 | Closes the full segment, opens the next and drops the oldest names beyond the limit |
| `JournalStore.BMJ1Journal.WriteNext` | pico/bmcu_journal.py:111-122 | The file grows by the oldest staged record or by the part it accepts, and only a whole record leaves the stager |
| `JournalStore.BMJ1Journal.FlushOne` | pico/bmcu_journal.py:247-286 | Rotates if the record does not fit, writes it and commits when due, as specified, for any partial write and any failing commit |
| `StreamParsing.StreamRoundTrip` | pico/bmcu_binary.py:251-303 | Any cut of any concatenation of messages into pieces of at most 512 bytes, drained after each, comes out unchanged with no error |
| `StreamParsing.PiecesDoNotMatter` | pico/bmcu_binary.py:273-303 | On any stream at all the pieces give the messages of the whole, or its bad-header error, and the buffer of two messages never overflows |
| `StreamParsing.DrainSplits` | pico/bmcu_binary.py:281-303 | Draining in two steps equals draining once, on every stream |
| `StreamParsing.LeftoverIsShort` | pico/bmcu_binary.py:281-303 | What stays buffered without an error is shorter than one maximal message |
| `StreamParsing.VerdictIsStable` | pico/bmcu_binary.py:281-303 | More bytes never change a verdict other than "wait" |
| `StreamParsing.StreamParser.Feed` | pico/bmcu_binary.py:273-279 | Appends the piece to the buffered bytes, compacting in place if needed, or raises overflow exactly when it cannot fit |
| `StreamParsing.StreamParser.NextMessage` | pico/bmcu_binary.py:281-303 | Takes the message at the front of the buffered bytes, or changes nothing |
| `StreamParsing.StreamParser.Compact` | pico/bmcu_binary.py:265-271 | The in-place forward copy keeps the buffered bytes |
| `StreamParsing.StreamParser.ReceiveChunk` | pico/bambuddy_binary_tcp.py:213-219 | Feed and drain of one received piece, with both errors |
| `Bmb1Codec.ParseEncoded` | pico/bmcu_binary.py:29-52 | A written message is recognised whatever follows it, every field intact |
| `Bmb1Codec.ParsePartial` | pico/bmcu_binary.py:281-296 | A proper prefix of a message is never reported as a message or an error |
| `Bmb1Codec.DropRoundTrip` | pico/bmcu_binary.py:78-89 | The loss marker parses back to its own bounds, count and reason |
| `Bmb1Codec.FrameRoundTrip` | pico/bmcu_binary.py:55-65 | A written BMCU frame message parses back, by `parse_bmcu_frame`, to the time and the wire bytes of the caller |
| `Bmb1Codec.FrameInverts` | pico/bmcu_binary.py:422-428 | An accepted frame payload is the time, the length and the wire bytes in exactly one way |
| `Bmb1Codec.LinkStateReads` | pico/bmcu_binary.py:401-408 | A written link state parses back to its time, state and reason |
| `Bmb1Codec.HeaderFields` | pico/bmcu_binary.py:29-41 | Every header field stands big-endian at its place, the reserved bytes zero |
| `HelloCodec.HelloRoundTrip` | pico/bmcu_binary.py:137-187 | A written HELLO payload parses back to the same identity, links, ranges and HMAC |
| `HelloCodec.HelloMessageRoundTrip` | pico/bmcu_binary.py:137-187 | A whole HELLO message is recognised in the stream whatever follows it and parses back to what was written |
| `HelloCodec.HelloInverts` | pico/bmcu_binary.py:324-369 | An accepted HELLO payload is exactly the one the writer would produce: no two payloads mean the same |
| `HelloCodec.HelloTranscript` | pico/bambuddy_binary_tcp.py:46-69 | For every field whose length fits its byte, the authenticated transcript is the HELLO payload without its last 32 bytes |
| `HelloCodec.WriteHello` | pico/bmcu_binary.py:137-187 | Raises exactly on an unacceptable field, flag or buffer and leaves the buffer untouched; otherwise it holds the whole message |
| `HelloCodec.LinksInvert` | pico/bmcu_binary.py:344-356 | The link table consumes exactly the bytes of its links |
| `HelloCodec.TlvsRoundTrip` | pico/bmcu_binary.py:92-99 | Written TLVs parse back, cleanly and completely |
| `HelloCodec.TlvsInvert` | pico/bmcu_binary.py:431-442 | A clean parse accounts for every byte of the payload and a failed one for a prefix |
| `LinkDecoder.ChunkIndependence` | pico/bmcu_link.py:139-217 | Any two ways of feeding the same stream end with the same emitted frames, error counters and remainder; nothing is ever discarded as oversized |
| `LinkDecoder.SweepIsComplete` | pico/bmcu_link.py:163-208 | Every valid frame in the consumed part is emitted unless an emitted frame overlaps its first byte |
| `LinkDecoder.SweepIsDisjoint` | pico/bmcu_link.py:163-208 | Emitted frames come in stream order and never overlap |
| `LinkDecoder.SweepInside` | pico/bmcu_link.py:163-208 | Every emitted frame is valid, and at most 65 bytes stay unconsumed, so the oversize branch is dead |
| `LinkDecoder.SweepSplits` | pico/bmcu_link.py:139-208 | Scanning a longer stream resumes exactly where the shorter one stopped |
| `LinkDecoder.JudgeStable` | pico/bmcu_link.py:175-196 | A verdict on a candidate does not depend on bytes that come later |
| `LinkDecoder.RoundTrip` | pico/bmcu_link.py:211-217 | Concatenated encoder outputs decode back exactly, after any decoded beginning |
| `LinkDecoder.DecodeEncode` | pico/bmcu_link.py:200-217 | One encoded frame decodes to its kind, sequence and payload |
| `LinkDecoder.WireLayout` | pico/bmcu_link.py:211-217 | Sync bytes, version, kind, little-endian sequence, length, payload and little-endian checksum stand at their places on the wire |
| `LinkDecoder.FrameDecoder.Feed` | pico/bmcu_link.py:139-161 | The buffer-cutting loop, in slices of 128 bytes, emits exactly what scanning the whole stream emits |
| `LinkDecoder.FrameDecoder.Parse` | pico/bmcu_link.py:163-208 | Drains the buffer to the scan's stopping point with the scan's counters |
| `PrinterParsers.Bisimulation` | src/_bus_hardware.h:201-335 | On every byte stream the interrupt parser and the framer report the same frames, heartbeats, bad lengths and header errors at the same byte, each frame being released before the next completes |
| `PrinterParsers.PrinterRxFramer.Push` | src/printer_rx_framer.cpp:33-101 | One byte is one step of the scanner that specifies both parsers |
| `PrinterParsers.BusPort.Irq` | src/_bus_hardware.h:201-335 | One byte of the interrupt parser, with its skipped heartbeats, swapped buffers, saturating counters and activity tick, is one step of the same scanner |
| `PrinterParsers.FrameFormat` | src/_bus_hardware.h:237-299 | What a well-formed frame and a heartbeat are, in the numbers of the bus: sync bytes, place and meaning of the length, place of the header checksum, at most 1280 bytes |
| `PrinterParsers.RejectedIff` | src/printer_rx_framer.cpp:67-88 | A frame is given up exactly at the byte that shows a length out of range or a wrong header checksum |
| `PrinterParsers.CounterCounts` | src/_bus_hardware.h:201-335 | Each saturating counter of the interrupt parser is the number of its events, up to the largest 32-bit number |
| `PrinterParsers.ReportedFramesAreChecked` | src/printer_rx_framer.cpp:83-100 | A completed frame or heartbeat had its header CRC byte checked and its length in range |
| `PrinterParsers.FrameRecognised` | src/printer_rx_framer.cpp:33-101 | Every well-formed frame that starts while the scanner is idle is reported, at its last byte and not before |
| `Crc.NibbleTableCrc` | src/bmcu_link.cpp:179-198 | The nibble-table loop computes the bitwise polynomial on every input |
| `Crc.CcittFalse` | pico/bmcu_link.py:42-48 | The bitwise loop computes the same polynomial |
| `Crc.BusCrc8` | src/crc_bus.c:61-67 | The table loop over the literal table is the bitwise polynomial 0x39 |
| `Crc.BusCrc16` | src/crc_bus.c:69-78 | The table loop over the literal table is the bitwise polynomial 0x1021 |
| `Crc.BusEntry8` | src/crc_bus.c:3-20 | Each of the 256 literal entries is eight polynomial rounds of its index |
| `Crc.BusEntry16` | src/crc_bus.c:22-55 | Each of the 256 literal entries is eight polynomial rounds of its index |
| `Crc.NibbleEntry` | src/bmcu_link.cpp:184-189 | Each of the 16 literal entries is four polynomial rounds |
| `Crc.SingleByteChange16` | src/crc_bus.c:69-78 | Two inputs that differ in exactly one byte never share a 16-bit CRC |
| `Crc.AdjacentBytesChange16` | src/bmcu_link.cpp:179-198 | Nor do two that differ only in two adjacent bytes |
| `Crc.SingleByteChange8` | src/crc_bus.c:61-67 | Two inputs that differ in exactly one byte never share an 8-bit CRC |
| `FlashLog.LogAgreesWithVariable` | src/Flash_saves.cpp:347-422 | After any run of writes, what the boot scan reads from the words is exactly the last value written, through slot wrap and tag wrap |
| `FlashLog.WearIsLevelled` | src/Flash_saves.cpp:397-422 | Without power loss, n entries written cost at most (n + 31) / 32 page erases, and no more entries are written than values asked for |
| `FlashLog.PowerLossIsSafeIff` | src/Flash_saves.cpp:397-422 | After a power loss anywhere in a write the words stand for the old or the new history if and only if the write does not have to erase the page of the newest entry |
| `FlashLog.PowerLossReadsIff` | src/Flash_saves.cpp:347-422 | After a power loss anywhere in a write the next boot reads the old or the new value if and only if the write does not have to erase the page of the newest entry, or the latest value outside that page happens to be one of the two |
| `FlashLog.SurvivorIsPageBefore` | src/Flash_saves.cpp:347-422 | That value is the last one of the page before, so up to 31 writes are forgotten |
| `FlashLog.ReadIsNewest` | src/Flash_saves.cpp:347-395 | From any words whose complete entries are genuine, intact or not, a boot reads the latest of them |
| `FlashLog.HealthyPowerLossIsSafe` | src/Flash_saves.cpp:397-422 | In a log without earlier power losses every single one is safe: the log stands for the old or the new history and the boot reads the old or the new value |
| `FlashLog.TrapSprings` | src/Flash_saves.cpp:409-415 | A log with no half-written slot can still be unsafe: one lap after a repair in mid-page, a power loss during the next write can leave a boot to read the last value of the page before |
| `FlashLog.LapAfterRepairForgets` | src/Flash_saves.cpp:347-422 | From a blank flash, a torn second write, its repair and a lap of undisturbed writes: one more power loss, and a boot can read a value that is neither the last one saved nor the one being written |
| `FlashLog.SomeLapForgets` | src/Flash_saves.cpp:347-422 | One run that does it, with its values: 0 is saved, 1 is being written, 2 is read |
| `FlashLog.RepairForgets` | src/Flash_saves.cpp:409-415 | A second power loss during the repair itself can leave a boot to read that no channel is loaded |
| `FlashLog.RepairSetsTrap` | src/Flash_saves.cpp:409-415 | Repairing a half-written slot in mid-page sets that trap |
| `FlashLog.TrapStays` | src/Flash_saves.cpp:397-422 | Ordinary writes leave it set until the lap is over |
| `FlashLog.SerialOrder` | src/Flash_saves.cpp:369-375 | Signed comparison of the 16-bit tags orders any two entries less than 320 writes apart |
| `FlashLog.ScanFindsNewest` | src/Flash_saves.cpp:347-395 | From an intact log the boot scan reads the last write, and its next slot and tag follow |
| `FlashLog.WriteCompletes` | src/Flash_saves.cpp:397-422 | A write that keeps its power always succeeds and adds exactly its entry |
| `FlashLog.HealthyWriteErasesAtPageStart` | src/Flash_saves.cpp:409-415 | Only the first slot of a page is ever found occupied |
| `FlashLog.TornPairIsInvalid` | src/Flash_saves.cpp:362-364 | An entry whose second word is still erased is never accepted |
| `FlashLog.StateLog.StateRead` | src/Flash_saves.cpp:347-395 | The scan loop computes the reference read of any words at all; from an intact log it restores the last value and the write position |
| `FlashLog.StateLog.StateWrite` | src/Flash_saves.cpp:397-422 | The write adds its entry, does nothing for an unchanged value, or leaves exactly the image the power loss caught |
| `FlashLog.StateLog.ProgWords` | src/Flash_saves.cpp:95-106 | Programs word by word, stopping at a refusal or at the power loss |
| `FlashLog.StateLog.Erase` | src/Flash_saves.cpp:63-76 | Erases one page and no other |
| `FlashLog.StateLog.SlotWord` | src/Flash_saves.cpp:279-284 | Slot addresses are consecutive pairs of words |
| `BootSession.NeverReused` | pico/boot_session.py:30-49 | Whatever prefix of its record each crash leaves, the identifiers returned by later boots strictly increase until the 64-bit limit |
| `BootSession.BootKeepsTheTop` | pico/boot_session.py:30-49 | The file written is never the one that holds the largest identifier, and the largest never gets smaller |
| `BootSession.IncreasesIffRoom` | pico/boot_session.py:34-39 | The next identifier is larger if and only if the last possible one is not stored; then it starts again at 1 |
| `BootSession.DecodeEncode` | pico/boot_session.py:14-19 | A record reads back exactly when its value is nonzero |
| `BootSession.OneChangedByteIsCaught` | pico/boot_session.py:14-19 | A record in which any one byte was changed is not read as an identifier |
| `BootSession.BootStore.NextBootId` | pico/boot_session.py:30-49 | Picks, encodes and writes as specified, for any crash point |
| `DmaUart.NothingGoesMissing` | pico/uart_dma_rx.py:210-277 | Over every interleaving of line bytes and calls: stored bytes are delivered, counted as lost or pending, and delivered bytes are bytes of the stream, in order, at most once |
| `DmaUart.StartIsFaithful` | pico/uart_dma_rx.py:192-209 | A reader just started accounts for the empty stream, so the runs above may begin there |
| `DmaUart.ReadIsNextSlice` | pico/uart_dma_rx.py:223-254 | A read returns exactly the next resident slice, and the loss counter grows by exactly what was skipped |
| `DmaUart.ServiceKeepsItRunning` | pico/uart_dma_rx.py:264-277 | If no more than the critical count arrives between two services, the DMA stores every byte |
| `DmaUart.CountersTell` | pico/uart_dma_rx.py:223-277 | Overflows, re-arms and lost bytes are counted exactly for an overwritten ring, a full drain below the threshold and a late service; a drain loses nothing |
| `DmaUart.DmaUartReader.ReadBytes` | pico/uart_dma_rx.py:235-254 | Reads across the ring edge as one contiguous slice and re-arms only when drained |
| `DmaUart.DmaUartReader.AnyAvailable` | pico/uart_dma_rx.py:223-233 | Steps over overwritten bytes, counting them |
| `DmaUart.DmaUartReader.ServiceCount` | pico/uart_dma_rx.py:264-277 | Re-arms at the critical count and counts the unread rest |
| `DmaUart.DmaUartReader.Transfer` | pico/uart_dma_rx.py:192-199 | The self-wrapping write keeps the last bytes at their positions |
| `OnlineDetect.OfferOnlyAfterTrueSilence` | src/ams_online_detect_policy.h:70-109 | Through any 32-bit wraps, a registered unit offers only if its latest poll saw true silence and true confirm age past the thresholds with no service frame since |
| `OnlineDetect.OfferExactlyAfterTrueSilence` | src/ams_online_detect_policy.h:70-109 | While its polls come in time, that is exactly when it offers |
| `OnlineDetect.RunIsPromptIff` | src/ams_online_detect_policy.h:48-122 | No flag ever lags the truth in a run if and only if each poll comes in time: an age past its threshold still shows as such modulo 2^32, unless its flag is latched already |
| `OnlineDetect.StepIsPromptIff` | src/ams_online_detect_policy.h:48-122 | The same for one call: only a poll of a registered unit can come too late |
| `OnlineDetect.FrequentPollsOfferExactly` | src/ams_online_detect_policy.h:70-109 | Polls at most a gap apart, with gap plus threshold within the tick range, come in time |
| `OnlineDetect.LatePollHidesSilence` | src/ams_online_detect_policy.h:70-109 | A poll that comes too late leaves a flag behind, and a query that the truth would answer with an offer gets none |
| `OnlineDetect.SlowPollMissesSilence` | src/ams_online_detect_policy.h:70-81 | A first poll a full tick wrap after the confirm misses any silence |
| `OnlineDetect.StepIsSound` | src/ams_online_detect_policy.h:48-122 | No call puts a flag ahead of the truth |
| `OnlineDetect.UnregisteredAlwaysOffers` | src/ams_online_detect_policy.h:85-109 | After any run an unregistered unit answers every query, the first since a reset with a first offer and each later one with a repeated offer; any offer unregisters |
| `OnlineDetect.ConfirmRegisters` | src/ams_online_detect_policy.h:85-122 | Only a confirm registers; only a reset or an offer unregisters |
| `OnlineDetect.Detector.PollFlags` | src/ams_online_detect_policy.h:70-81 | Latches each flag by the wrapped difference and clears none |
| `OnlineDetect.Detector.Answer` | src/ams_online_detect_policy.h:85-109 | Answers a query and moves between the offer phases as specified |
| `OnlineDetect.Detector.NoteServiceTraffic` | src/ams_online_detect_policy.h:60-64 | A service frame restarts the silence |
| `OnlineDetect.Detector.Latch` | src/ams_online_detect_policy.h:114-122 | A confirm starts both measurements afresh |
| `ServiceWatch.NeverDrifts` | src/bmcu_ams_service_watch.h:95-209 | After any run of calls in which the ticks up to each poll and the carry stay below 2^32, through any wraps, every millisecond register is the saturated difference of two readings of one ideal clock, and both maxima are the longest silences observed |
| `ServiceWatch.RunIsExactIff` | src/bmcu_ams_service_watch.h:107-125 | No poll of a run gains or loses time against the ideal clock if and only if that condition, on the poll times alone, holds for each of them |
| `ServiceWatch.LatePollLosesTime` | src/bmcu_ams_service_watch.h:107-125 | A watch polled again exactly one tick wrap later counts no time at all |
| `ServiceWatch.FirstCallIsAccurate` | src/bmcu_ams_service_watch.h:95-106 | The first call on a zeroed watch starts the clock, so the runs above may begin there |
| `ServiceWatch.PollIsExactIff` | src/bmcu_ams_service_watch.h:107-125 | One poll is exact, milliseconds and carry, if and only if ticks since the last poll plus the carry stay below 2^32 |
| `ServiceWatch.RegistersStayOrdered` | src/bmcu_ams_service_watch.h:95-209 | Whatever the ticks do, the session maximum never exceeds the session age and a served watch keeps its gap within its maximum |
| `ServiceWatch.OneEventPerSilence` | src/bmcu_ams_service_watch.h:144-152 | Gap events never outnumber the silences: at most one running and one behind each service frame |
| `ServiceWatch.LongSilenceIsReported` | src/bmcu_ams_service_watch.h:144-152 | A reporting poll raises the event exactly when the gap has reached five seconds and none was raised in this silence |
| `ServiceWatch.StepIsAccurate` | src/bmcu_ams_service_watch.h:164-209 | Each entry point keeps every register true to the clock |
| `ServiceWatch.SatAddSaturates` | src/bmcu_ams_service_watch.h:68-72 | The wrapping test saturates exactly at the 32-bit maximum |
| `ServiceWatch.CountersCount` | src/bmcu_ams_service_watch.h:164-209 | Over any run every counter is the number of its events, up to the 16-bit maximum; a reset counts only after a confirm |
| `ServiceWatch.QueryCountsIffDue` | src/bmcu_ams_service_watch.h:182-187 | A query counts as a repeated offer if and only if the unit is registered, confirmed 3 s ago and silent for 1.5 s of true time |
| `ServiceWatch.EdgesTellTrueSilence` | src/bmcu_ams_service_watch.h:141-159 | A reporting poll tells a silence of 5 s and a due offer exactly once each, with the true silence of that moment |
| `ServiceWatch.OneReofferPerWait` | src/bmcu_ams_service_watch.h:141-159 | Over any run at most one due offer is told for each service frame, confirm or reset, and the one running |
| `ServiceWatch.Monitor.PollTicks` | src/bmcu_ams_service_watch.h:95-159 | The polling method is the specified step, edges included |
| `ServiceWatch.Monitor.NoteService` | src/bmcu_ams_service_watch.h:164-178 | A service frame polls, counts, ends the silence and keeps the carry |
| `ServiceWatch.Monitor.NoteConfirm` | src/bmcu_ams_service_watch.h:189-198 | A confirm polls and restarts the session registers |
| `ServiceWatch.Monitor.NoteQuery` | src/bmcu_ams_service_watch.h:182-187 | A query polls and counts, also when it would re-offer |
| `ServiceWatch.Monitor.NoteReset` | src/bmcu_ams_service_watch.h:203-209 | Only a registered watch counts a reset |
| `AmsMotion.OneActiveChannel` | src/bambu_bus_ams.cpp:220-463 | Over every run of motion commands, motor-side resets, saves and reboots, from any stored byte: either a byte that is no channel is still recorded and nothing moves, or only the active channel moves, the recorded channel is the active one, and a channel being fed in or drawn back is not recorded |
| `AmsMotion.StrayEndsIff` | src/bambu_bus_ams.cpp:220-463 | A stored byte that is no channel stays recorded, through saves and resets, exactly until a feed or a release |
| `AmsMotion.StrayByteLocksOut` | src/main.cpp:234-254 | Until then no command puts any channel in use |
| `AmsMotion.ObeyKeeps` | src/bambu_bus_ams.cpp:220-463 | Every command with any bytes keeps that |
| `AmsMotion.LoadedChannelIsGuarded` | src/bambu_bus_ams.cpp:240-266 | While a channel is recorded, no command but a feed for another channel moves anything |
| `AmsMotion.FeedTakesOver` | src/bambu_bus_ams.cpp:251-281 | A feed leaves its channel the only one moving and nothing recorded |
| `AmsMotion.UsePutsInUse` | src/bambu_bus_ams.cpp:329-376 | On the bytes of the command: an allowed use that is not held leaves its channel alone in use, active and recorded; a held one leaves it feeding and starts or keeps its wait |
| `AmsMotion.UsePressure` | src/bambu_bus_ams.cpp:364-373 | It asks for soft pressure exactly for the first five uses after a soft prepare, and leaves the pressure of a jam |
| `AmsMotion.RepeatedUseIff` | src/bambu_bus_ams.cpp:329-376 | A use repeated after a held one is accepted if and only if the hold has passed on the ticks since then; a first one at tick 0 is forgotten |
| `AmsMotion.PreparePrepares` | src/bambu_bus_ams.cpp:282-305 | An allowed prepare leaves its channel alone before use, active and recorded |
| `AmsMotion.StopStopsUse` | src/bambu_bus_ams.cpp:307-328 | A stop for the recorded channel ends its use and keeps it recorded; for another it moves nothing |
| `AmsMotion.WithdrawBeginsPullBack` | src/bambu_bus_ams.cpp:377-397 | A withdrawal of the recorded channel in use leaves it alone before pull-back and forgets it; for another it moves nothing |
| `AmsMotion.PullAllPullsBack` | src/bambu_bus_ams.cpp:404-427 | The pull for all leaves the active channel alone pulling back if it was in use or about to, and forgets it |
| `AmsMotion.ReleaseFreesAll` | src/bambu_bus_ams.cpp:434-460 | A release idles every channel and forgets the recorded one, unless the active one is in use |
| `AmsMotion.TheRestMovesNothing` | src/bambu_bus_ams.cpp:397-433 | Every other combination of bytes moves nothing; a status 1 for all may forget the recorded channel |
| `AmsMotion.OnlyPullAllPullsBack` | src/bambu_bus_ams.cpp:220-463 | No other command puts a channel in pull-back |
| `AmsMotion.UseWaitsOutTheHold` | src/bambu_bus_ams.cpp:329-376 | After any run, a use command ends a feed only when at least the hold of true time has passed since the latest feed command, through tick wraps and the zero sentinel; the hold is 15 s at every tick rate for which 15 s fit 32 bits of ticks |
| `AmsMotion.OnlyActiveWaits` | src/bambu_bus_ams.cpp:251-266 | Over every run only the active channel can be waiting out a hold |
| `AmsMotion.SaveIsDueUntilWritten` | src/main.cpp:154-160 | A save writes the recorded channel exactly if it changed and stays due exactly if the flash refuses |
| `AmsMotion.KeyOpenForgets` | src/Motion_control.cpp:2978-2980 | A filament that leaves the key forgets its own channel and no other, and moves nothing |
| `AmsMotion.SavedSurvivesReset` | src/main.cpp:234-254 | After a successful save a reset restores the recorded channel, active and in use; any other recorded byte leaves every channel idle |
| `AmsMotion.Ams.SetMotion` | src/bambu_bus_ams.cpp:220-463 | The command method changes exactly the specified fields; a command for another unit changes none |
| `AmsMotion.Ams.StartOnUse` | src/bambu_bus_ams.cpp:329-376 | The use command on the active channel is the specified step, which puts the channel in use unless it is held (`AmsMotion.UsePutsInUse`) |
| `AmsMotion.Ams.SwitchTo` | src/bambu_bus_ams.cpp:251-266 | The channel that loses its place goes idle and its wait is cleared |
| `AmsMotion.Ams.SetLoaded` | src/main.cpp:133-139 | Records a channel only if none is recorded |
| `AmsMotion.Ams.SetUnloaded` | src/main.cpp:141-147 | Clears the record only for its own channel or for all |
| `AmsMotion.Ams.SaveRun` | src/main.cpp:154-160 | A clean state is not written; a failed write leaves it dirty |
| `AmsMotion.Ams.OnPullFault` | src/Motion_control.cpp:2281-2285 | The pull fault leaves its channel idle and touches no other |
| `AmsMotion.Ams.OnRedetected` | src/Motion_control.cpp:2380-2402 | So does the end of a re-detection, which also clears the use flag |
| `AmsMotion.Ams.constructor` | src/main.cpp:234-254 | The boot restore from any stored byte: that channel active and in use, or none |
| `PullBack.PullAlwaysEnds` | src/Motion_control.cpp:2289-2378 | With a good sensor and a quiet bus, whatever the encoder reports, a pull-back leaves, its last turn included, in less than (floor((target-1)/quantum)+1) times (3 s plus the largest loop gap); one of length zero leaves at the next turn |
| `PullBack.PullEndsOnceQuiet` | src/Motion_control.cpp:2289-2378 | The same bound holds from the last disturbance: whatever errors came before, once sensor and bus stay good the pull-back leaves within it |
| `PullBack.DisturbanceStops` | src/Motion_control.cpp:2755-2772 | A turn with an error or a bad reading leaves the motion of a pull-back at a stop and its remaining length as it was |
| `PullBack.StalledPullsIff` | src/Motion_control.cpp:2332-2378 | A stalled channel goes on pulling if and only if every turn without an error comes less than 3 s after the watch was last restarted, an error restarting it at the next good turn |
| `PullBack.PullBeginsStalled` | src/Motion_control.cpp:2413-2616 | A pull-back of nonzero length that has just begun is such a channel |
| `PullBack.PullEndings` | src/Motion_control.cpp:2310-2352 | It ends by target or key without a fault, else by the fault that names its cause, with the motion at a stop and the travel less than one step over budget |
| `PullBack.ErrorsRestartTheWatch` | src/Motion_control.cpp:2755-2764 | So errors every three seconds keep a stalled pull-back going for any length of time |
| `PullBack.RunKeeps` | src/Motion_control.cpp:2413-2616 | Over every run the motion is a pull only under supervision, and under a fault it is a stop and the position idle |
| `PullBack.FaultStaysLatched` | src/Motion_control.cpp:2423-2439 | A fault ends only by a pull-back wish for this channel while it is the active one |
| `PullBack.FaultHoldsTheMotion` | src/Motion_control.cpp:2423-2439 | Until then the motion stays a stop over any run; what drives the motor all the same is below |
| `PullBack.MotionTellsWish` | src/Motion_control.cpp:2453-2605 | On an undisturbed turn of the active channel without a fault each motion comes from its own wish and no other: pressure control on use if and only if the wish is use, and likewise for stop, prepare, withdrawal, pull-back, feed, idle and jam |
| `PullBack.OthersRest` | src/Motion_control.cpp:2441-2451 | A channel that is not active, or has its key open, rests whatever the wish |
| `PullBack.RetryPulls` | src/Motion_control.cpp:2423-2439 | A pull-back wish clears the fault and pulls again, if the key is pressed |
| `PullBack.RedetectsUntilKey` | src/Motion_control.cpp:2380-2402 | After a pull-back the motor feels for the key exactly while it is open |
| `PullBack.PullTargetIsTheRest` | src/Motion_control.cpp:2508-2529 | The length to pull is 100 mm after a jam, else what the withdrawal has not yet taken back |
| `PullBack.WaitingKeepsTheMotion` | src/Motion_control.cpp:2984-2996 | While another channel is waited for a channel goes on as it was, but a feed whose filament has left the key stops |
| `PullBack.CountsAddUp` | src/Motion_control.cpp:2214-2221 | Over an undisturbed pull-back progress and travel are the sums of the encoder steps, directed and undirected |
| `PullBack.CountsRestart` | src/Motion_control.cpp:906-942 | Only a new feed or pull starts the counts, and it sets their direction |
| `PullBack.OnlyPullsFault` | src/Motion_control.cpp:2332-2352 | Only a supervised pull-back faults, and the fault stops it |
| `PrinterLoop.OneMotorAtATime` | src/Motion_control.cpp:2755-2772 | Over every run of commands, loop turns, saves and resets, from any stored byte, the command layer drives at most one of the four motors, and none beside a supervised pull-back |
| `PrinterLoop.MotorsTellThePrinter` | src/Motion_control.cpp:2413-2616 | After any run, on an undisturbed turn with nothing supervised, the motion of every channel without a fault tells the printer's motion for it, and the other way round |
| `PrinterLoop.UseReachesTheMotor` | src/bambu_bus_ams.cpp:329-376 | After any run, an allowed use command that is not held ends in pressure control for use on the next turn and for as long as the turns stay undisturbed, with no other motor driven |
| `PrinterLoop.CommandReachesTheMotor` | src/Motion_control.cpp:2413-2616 | The same for every command that leaves its channel in use, stopped, prepared or withdrawn |
| `PrinterLoop.PullAllReachesTheMotor` | src/bambu_bus_ams.cpp:404-427 | The pull for all starts a supervised pull on the next turn, of the length still to pull, fault or not |
| `PrinterLoop.ChannelsRunAlone` | src/Motion_control.cpp:2755-2772 | Whatever is commanded in between, each motor runs as its own turns say, so the bounds on a pull-back hold in the whole loop |
| `PrinterLoop.FaultLastsUntilPullAll` | src/Motion_control.cpp:2269-2286 | A turn that faults a channel idles it for the printer, and over every run of commands and turns without a new pull for all the fault stands and the motion is a stop |
| `PrinterLoop.RedetectionEnds` | src/Motion_control.cpp:2380-2402 | A re-detection ends on the turn that finds the key pressed, and then idles its channel for the printer too |
| `PrinterLoop.MainLoop.Turn` | src/Motion_control.cpp:2971-3084 | One turn of the main loop over all four channels, loop by loop, is the specified step |
| `PrinterLoop.MainLoop.SuperviseAll` | src/Motion_control.cpp:2289-2408 | The loop over the supervised channels is the specified step of each, tells the printer what ended, and waits exactly while one is supervised |
| `PrinterLoop.MainLoop.SwitchAll` | src/Motion_control.cpp:2413-2616 | The loop of the command switch is the specified step of each channel |
| `PullBack.WatchContinues` | src/Motion_control.cpp:2332-2352 | Each unfinished turn keeps the watch: progress restarts it by whole quanta, and it was seen less than 3 s ago |
| `PullBack.UnwrapIsShortest` | src/Motion_control.cpp:2207-2212 | The encoder step is the shorter way round and agrees with both readings modulo a turn |
| `PullBack.Channel.Supervise` | src/Motion_control.cpp:2289-2408 | One supervised turn is the specified step and holds back the command switch exactly in the two supervised states |
| `PullBack.Channel.FollowPrinter` | src/Motion_control.cpp:2413-2616 | The command switch of one channel, fault branch first; its motion tells the wish (`PullBack.MotionTellsWish`) |
| `PullBack.Channel.CountStep` | src/Motion_control.cpp:2214-2221 | Progress is directed, travel is not |
| `PullBack.Channel.Turn` | src/Motion_control.cpp:2755-2772 | One loop turn: account, supervise or follow, stop on an error or a bad sensor |
| `PullBack.Channel.ChangeMotion` | src/Motion_control.cpp:906-942 | Only a change of motion restarts the bookkeeping; a repeated pull does not |
| `MotorDrive.StoppedIsDrivenIff` | src/Motion_control.cpp:2755-2904 | On a turn that commands a stop the motor is driven if and only if the sensor is good and an automatic unload runs or the inserted channel has its key open and the buffer above 80 %, with a known polarity, or no tick has passed since a turn that drove it |
| `MotorDrive.ErrorIsDrivenIff` | src/Motion_control.cpp:2755-2904 | Every turn with a bus error commands a stop, so the same condition holds on it |
| `MotorDrive.FaultIsDrivenIff` | src/Motion_control.cpp:2423-2439 | The same condition under a latched fault, which stays; no automatic unload starts under it |
| `MotorDrive.FaultLeavesOnlyManual` | src/Motion_control.cpp:2867-2904 | Over any run under a latched fault without a new pull-back wish, and with no unload running, the manual pull is the only drive left, exactly under that condition |
| `MotorDrive.FaultStillPulls` | src/Motion_control.cpp:2887-2898 | From power-up, a stalled pull-back that faults, then an open key and a pulled buffer: the fault stands and the motor pulls |
| `MotorDrive.ManualPullNeverEnds` | src/Motion_control.cpp:2867-2898 | Under any fault, error and command, the motor pulls on every turn with key open and buffer pulled: no watch ends it |
| `MotorDrive.UnloadAlwaysEnds` | src/Motion_control.cpp:2775-2865 | An automatic unload is over within 16.5 s and three loop gaps while the sensor is good, whatever key, tension and commands do, through tick wraps and the zero sentinel |
| `MotorDrive.UnloadBeginsAfterPull` | src/Motion_control.cpp:2775-2835 | After any run an automatic unload begins only from idle pressure control, with the buffer back at neutral at most a second after a turn that found it pulled and never neutral in between: one pull never starts two unloads |
| `MotorDrive.UnloadArmsIff` | src/Motion_control.cpp:2787-2826 | In idle pressure control an unload waits exactly from a pulled buffer until the buffer is neutral or a second has passed |
| `MotorDrive.UnloadGoesOnIff` | src/Motion_control.cpp:2836-2865 | A running unload goes on exactly while inserted, at 35 % or more, and before its two times are over |
| `MotorDrive.BypassPullsBack` | src/Motion_control.cpp:2867-2898 | With a known polarity an unload pulls back with 850 and a manual pull with 700, however the motor is wired |
| `MotorDrive.ControllerDrives` | src/Motion_control.cpp:1136-1162 | Otherwise a moving motion puts out what its controller gives |
| `MotorDrive.CommandSetsDeadline` | src/Motion_control.cpp:906-912 | Every commanded motion gets its deadline, a stop none |
| `MotorDrive.UncommandedMotionEnds` | src/Motion_control.cpp:1136-1157 | While another channel is waited for, a motion goes on exactly until its time since the last command is over; a deadline on tick 0 counts as none |
| `MotorDrive.PullBackIsUntouched` | src/Motion_control.cpp:1136-1157 | No motion deadline ends a pull-back, so its time bounds hold below the drive |
| `MotorDrive.ExpiryOnlyWhileWaiting` | src/Motion_control.cpp:1136-1157 | A motion deadline stops a motion only on turns that wait for another channel |
| `MotorDrive.RigRunKeeps` | src/Motion_control.cpp:2755-2904 | Over every run, deadlines included, the motion is a pull only under supervision and a stop under a fault, and an output marked zero is zero |
| `MotorDrive.Drive.Turn` | src/Motion_control.cpp:2755-2904 | One loop turn of a channel down to its PWM is the specified step |
| `MotorDrive.Drive.FollowBuffer` | src/Motion_control.cpp:2775-2865 | The automatic unload of one turn: start on a high tension that returns to neutral within a second, from idle only, and its four ends |
| `MotorDrive.Drive.RunOnce` | src/Motion_control.cpp:1136-1162 | The deadline, the stop and the unknown polarity come before what the motion controller gives |
| `MotorDrive.Drive.PutOut` | src/Motion_control.cpp:2867-2904 | The unload drives before the manual pull, and that before the motion |

## Left out

- Outboxes.Outbox.EnqueueRaw: whether the journal has room is a parameter of the call, here and in the other producers and `peek`; the journal's own side is `Journal.JournalStager`.
- Survival.QueuedOutlivesPower: for segments whose torn tail does not pass for a record, and files of earlier boots that hold no record of this one; a power loss keeps the open file up to some byte behind its last commit, and closed files whole.
- JournalStore.BMJ1Journal.Rotate: closing the old file, writing the new header and removing old names always go through.
- OutboxTiling.RunsTile: covers numbers below 2^64, the width of the wire field, and payload records that are not loss markers.
- Replay.ReplayTiles: tiles by header number; a journaled loss record's own payload range may be declared again, because the cursor moves one past the record.
- Journal.ParseEncoded: CRC-32 is any function from bytes to 32 bits, so nothing is claimed about how likely a corrupt record is to pass; fields too wide for their place are excluded by their types.
- FlashLog.StateLog.StateWrite: programming a word that is not erased is refused and leaves it unchanged; erases are complete or absent, and a word is programmed whole.
- PrinterParsers.Bisimulation: covers frames released before the next one completes; a held frame drops its successors in the interrupt parser only.
- DmaUart.NothingGoesMissing: DMA transfers happen between calls, not inside one.
- AmsMotion.OneActiveChannel: does not cover the AHUB `set` command, which writes motions directly.
- PullBack.PullAlwaysEnds: loop gaps stay below 2^32 - 3000 ms.
- PrinterLoop.OneMotorAtATime: speaks of the commanded motions; the drives that do not look at them are module `MotorDrive`.
- PrinterLoop.MainLoop.Turn: the jam latch, the length already withdrawn and whether a channel ever left pressure control are inputs, and so is the build with one key switch for each channel; the autoload of the build with two is not modelled.
- OutboxContent.EveryOfferIsGenuine: a STATUS comes from one of the links the outbox was made for.
- Survival.AckedStaysGone: what an ACK of the run covers; a commit inside a flush counts only through the bytes it makes durable.
- PullBack.Channel.Supervise: speed and PWM set-points are not modelled; what it does to the printer's motion is in `PrinterLoop.MainLoop.SuperviseAll`.
- PullBack.Channel.FollowPrinter: the jam latch and the retracted distance are inputs.
- MotorDrive.Drive.Turn: what the controllers of the moving modes compute is an input, one value for each turn.
- OnlineDetect.OfferOnlyAfterTrueSilence: the caller's own guards before a query are not modelled.
- ServiceWatch.NeverDrifts: the tick rate does not change during a run.
- Per-link delivery of coalesced STATUS: releasing through 0 drops every link's STATUS, so nothing says that each link's newest is delivered; the one that is delivered is the newest of its link.
- Which bytes of a record are sent again after a reconnect: the TCP client, its partial sends and its REPLAY flag.
- The dropped-range counters of the ring, the reject capture of the link decoder, `available_boot_ranges`, `iter_current` and other reporting.
- Directory errors of the journal, the encoding of its watermark file, and when the main loop flushes and commits.
- The filament slots of the flash, its calibration pages and its caches.
- The printer RX DMA cursors of `_bus_hardware.cpp`, snapshot scheduling, sockets, HTTP, Wi-Fi, GPIO, timers, LEDs, sensor scaling and calibration.
- SHA-256 and HMAC.
