# Cold-bore delivery guarantees: model and proofs

Cold-bore buffers simulated sensor telemetry per pad, ships it through RabbitMQ in one of two modes
(classic queues or streams) and stores it in TimescaleDB. Its documentation claims that no frame is
lost while the edge lives and that retries and replays leave one row per frame. Here the code behind
those claims is modelled in Dafny 4.11, the claims are proved of it, and each component's own
guarantees are proved with them. `dafny verify dfyconfig.toml` checks the whole project.

## What is modelled

Every file is one module of the same name. Each stateful component has two forms. A value-level model (`GapModel`, `UplinkModel`,
`ClassicModel`, `StreamModel`, `ConsumerModel`, `StreamIngest`, `Numbering`) says as functions what
one call or one event does, branch by branch; theorems are proved about these functions over all
inputs and all runs. A class (`GapTracker`, `UplinkState`, `ClassicPublisher`, `StreamPublisher`,
`ClassicConsumer`, `StreamConsumer`, `Database`, `WellSim`, `Generator`) updates its fields and loops
as the program does, and every method's contract equates the new state with the model function of
the old one.

- **Gap index** (`GapModel`, `GapProofs`, `GapCap`, `GapTracking`, `GapOrder`): the per-well interval
  index is the maximal-interval form of a set difference, does not depend on arrival order within or
  across wells, and its counters balance.
- **Sink** (`Sink`): an idempotent keyed table, indifferent to batching, order and duplicates.
- **Index and table** (`IndexAgreement`, `Accounting`): within one process the index counts exactly
  the holes of the stored data.
- **Edge custody** (`UplinkModel`, `UplinkOrder`, `UplinkDrain`, `UplinkState`, `ClassicModel`,
  `ClassicCustody`, `ClassicRetries`, `ClassicOrder`, `ClassicPump`, `ClassicPublisher`, `StreamModel`,
  `StreamCustody`, `StreamLog`, `StreamOrder`, `StreamPadOrder`, `StreamStaging`, `StreamPublisher`):
  conservation, confirm pairing, per-pad order, retransmission order, publishing ids and the log; and
  what pulls, pumps, confirms and sweeps get done and why they stop.
- **Ingest** (`ConsumerModel`, `ConsumerProofs`, `ConsumerSettles`, `ClassicConsumer`, `StreamIngest`,
  `StreamExact`, `StreamLate`, `StreamConsumer`): ack-after-commit under multiple-ack; where every message
  ends up; rows and offset in one transaction; where sessions start.
- **Generator** (`Numbering`, `Generator`): numbering without reuse or holes, and the sample
  accumulator.
- **End to end** (`Pipeline`, `PipelineIndex`, `StreamPipeline`): the components composed with an
  abstract durable broker into one step relation each, for classic and for stream mode; for classic
  mode also with the gap index, through process deaths and reseeding.

What comes from outside is an arbitrary input: link state at each read, the reorder window, the
random swap indices, the duplicate coin, publish and confirm outcomes, teardown deadlines, the order
in which a hash map yields its keys, clock readings, transaction outcomes (committed, rolled back,
committed without the client hearing of it, or landing at some later time), crashes and disconnects.

The end-to-end theorems assume what the design assumes: the edge process stays alive (custody is in
memory), a broker ack or confirm means the message is durably queued or logged, a stream is append-only
and untruncated, and the JSON encoding of a frame decodes to that frame.

## Where code and documents differ

The model follows the code.

- At most 1024 open ranges per well (`specs/005-ingest-consumer`, gap accounting): splits insert without
  checking the cap, so more can be open (`GapCap.BoundKeptIff`), and once a range has been spilled
  arrival order matters (`GapCap.BoundIsNotKeptAndOrderMatters`).
- Retransmission in sequence order (`docs/design/architecture.md:140`): a failed publish goes in front
  of older pending frames and a nacked frame goes out again behind younger ones
  (`ClassicRetries.NackBreaksTheOrder`; the exact condition of each teardown is
  `ClassicRetries.TeardownInOrderIff`, `BrokenInOrderIff` and `FailedInOrderIff`), and stream
  retransmits leave in the reverse of the order in which they came back
  (`StreamOrder.RetransmitsReverse`).
- Dropped frames are counted honestly (`docs/design/architecture.md:147`): with a buffer capacity of
  zero a frame that finds an empty buffer is counted and kept (`UplinkOrder.DropCounterIsHonestIff`).
- The stored offset can never run behind the data it covers (`crates/coldbore-ingest/src/sink.rs:84-86`):
  when a timed-out commit lands while the next session is under way it can, if and only if a batch may
  hold two frames or more (`StreamLate.MovesBackIff`). A resume is then no longer at the first
  uncommitted record; over every run resumes are exact if and only if no commit skips past the stored
  offset or falls behind it (`StreamExact.ResumesExactlyIff`). The data stays whole
  (`StreamIngest.ReplayIsHarmless`).
- `batch_max_frames` may be configured as zero. A poison delivery then flushes an empty batch and
  acks delivery tag zero, which settles everything outstanding (section 1.8.3.13, basic.ack, of the
  AMQP 0-9-1 class reference); no frame is ever lost exactly when the maximum is at least one
  (`ConsumerProofs.NeverLosesIff`).
- `message_id` without the epoch (`docs/design/architecture.md:129`): the code includes it; identities
  in this model do too.

## Model

| member | source | states |
|---|---|---|
| Pipeline.NoFrameIsLost | crates/coldbore-edge/src/uplink.rs:146-524 | over every run of generator, edge, broker, ingest and table steps, every frame ever made is in the channel, among the drops, held by the edge, on the wire, queued or unsettled at the broker, or in the table |
| Pipeline.TableIsWhatWasMade | crates/coldbore-ingest/src/sink.rs:13-19 | when the volatile places are empty and nothing was dropped, the table is the made frames, one row each, every frame can be read back value by value, and a well's stored numbers are exactly 1 up to what it made |
| Pipeline.OneRowPerIdentity | crates/coldbore-ingest/src/sink.rs:13-19 | at every moment of a run no identity has two rows |
| Pipeline.StepKeeps | crates/coldbore-ingest/src/consume.rs:121-238 | every step of the composed system keeps custody, broker, session and provenance invariants together |
| Pipeline.EveryFrameIsAccounted | crates/coldbore-edge/src/uplink.rs:349-524 | conservation at the edge and truthful acks put each made frame in one of the named places |
| PipelineIndex.StepKeeps | crates/coldbore-ingest/src/consume.rs:86-238 | every step of pipeline and index, session starts and process restarts included, keeps the index in agreement with the table, and what it has not heard of on its way |
| PipelineIndex.IndexAgreesOverRuns | crates/coldbore-ingest/src/consume.rs:205-238 | over every run the index agrees with the table, and every stored row it has not heard of belongs to a frame that is queued again or delivered above the last ack |
| PipelineIndex.IndexShowsNoGapAtRest | crates/coldbore-ingest/src/gap.rs:92-184 | when everything has come to rest and nothing was dropped, the index knows every well that made a frame, has no open range in it, and expects exactly the next number, whatever sessions broke, inserts landed late or processes died |
| StreamPipeline.NoFrameIsLost | crates/coldbore-edge/src/uplink_stream.rs:182-347 | the same over the stream: channel, drops, edge custody, or a record of the stream |
| StreamPipeline.TableIsWhatWasMade | crates/coldbore-ingest/src/consume_stream.rs:185-219 | when nothing is under way or dropped and the stream is committed to its end, the table is the made frames, one row each, without holes, and every frame can be read back value by value |
| StreamPipeline.StepKeeps | crates/coldbore-ingest/src/consume_stream.rs:41-176 | every step keeps custody, log, provenance and ingest invariants together |
| GapProofs.ObserveKeeps | crates/coldbore-ingest/src/gap.rs:92-184 | every branch keeps: ranges non-empty, disjoint, non-adjacent, ending at or below next_expected - 2, and holding exactly the missing numbers that are not in a range reported while the table was full |
| GapProofs.RangesAreMaximal | crates/coldbore-ingest/src/gap.rs:118-181 | each range holds only missing numbers and touches no open number on either side |
| GapProofs.RangesAreUnique | crates/coldbore-ingest/src/gap.rs:118-181 | two range tables that cover the same numbers are the same (start, end) ranges, so the decomposition is the only one |
| GapProofs.OpeningTimesSurvive | crates/coldbore-ingest/src/gap.rs:152-169 | a missing number keeps the time of the jump that skipped it through every shrink and split of its range |
| GapProofs.OpenedIsWhatBecameMissing | crates/coldbore-ingest/src/gap.rs:134-139 | a reported opening names exactly the numbers that became missing |
| GapProofs.HealedIsTheLastOfItsGap | crates/coldbore-ingest/src/gap.rs:170-179 | a heal is reported exactly when the last number of a gap arrives, with the time the gap was open |
| GapProofs.RunKeeps | crates/coldbore-ingest/src/gap.rs:92-184 | the invariant holds after any series of arrivals |
| GapProofs.OrderIndependent | crates/coldbore-ingest/src/gap.rs:100-183 | two orders of the same arrivals, both ending with nothing spilled, leave the same epoch, watermark and ranges |
| GapProofs.OrderMattersOnlyThroughSpills | crates/coldbore-ingest/src/gap.rs:121-141 | for any two series with the same arrivals the ranges agree if and only if what each has lost to spills agrees |
| GapProofs.CompleteIffNothingLost | crates/coldbore-ingest/src/gap.rs:121-141 | the ranges list every missing number if and only if none was lost to a spill |
| GapProofs.OnlyNewestEpochCounts | crates/coldbore-ingest/src/gap.rs:105-116 | feeding only the arrivals of the highest epoch gives the identical accounting |
| GapOrder.WellIsItsRun | crates/coldbore-ingest/src/gap.rs:83-100 | whatever the other wells do in between, a well's accounting is the run of its own arrivals from its seed, or from nothing |
| GapOrder.TrackerOrder | crates/coldbore-ingest/src/gap.rs:83-184 | over the whole tracker, the same seeds and arrivals in any interleaving leave the same wells, and these agree in epoch, watermark and ranges if and only if they lost the same numbers to spills |
| GapCap.BoundIsNotKeptAndOrderMatters | crates/coldbore-ingest/src/gap.rs:152-169 | there are arrivals that leave 1025 open ranges and nothing spilled in one order, and 1024 open and one spilled in another |
| GapCap.BoundKeptIff | crates/coldbore-ingest/src/gap.rs:123-169 | one arrival takes a table past the cap if and only if the table is full and the arrival falls strictly inside one of its ranges |
| GapTracking.ArrivalBalances | crates/coldbore-ingest/src/gap.rs:121-180 | for one arrival, opened + split + open before = healed + open after + discarded by an epoch reset |
| GapTracking.BooksBalance | crates/coldbore-ingest/src/gap.rs:73-180 | over every series of seeds and arrivals and over all wells, opened + interior splits = healed + discarded by epoch resets + open now |
| GapTracking.GapTracker.Observe | crates/coldbore-ingest/src/gap.rs:92-184 | the in-place update equals the model and reports its changes, and the tracker stays where everything it was told leads |
| GapTracking.GapTracker.Arrive | crates/coldbore-ingest/src/gap.rs:118-182 | the three cases of an arrival in its own epoch, and the changes they report |
| GapTracking.GapTracker.Seed | crates/coldbore-ingest/src/gap.rs:83-89 | an unknown well starts at max_seq + 1; a known one is left alone |
| GapTracking.GapTracker.OpenNow | crates/coldbore-ingest/src/gap.rs:73-78 | the total is the open and spilled ranges over all wells, in whatever order they come, and balances the counters against the splits and discards of everything told |
| Sink.InsertKeeps | crates/coldbore-ingest/src/sink.rs:13-19 | an insert adds exactly the batch's new keys and leaves old rows untouched |
| Sink.InsertCounts | crates/coldbore-ingest/src/sink.rs:50-82 | the affected-rows count is the number of keys that were new |
| Sink.BatchingIsIrrelevant | crates/coldbore-ingest/src/sink.rs:50-82 | for any split into batches the final table and the summed insert counts are those of one big batch |
| Sink.SinkIsOrderFree | crates/coldbore-ingest/src/sink.rs:13-19 | two delivery sequences of the same frames leave the same table, whose size is the number of distinct identities |
| Sink.RowsHoldTheirFrames | crates/coldbore-ingest/src/sink.rs:13-19 | with one body per identity a row holds the reading of the frame it names |
| Sink.FirstIsStored | crates/coldbore-ingest/src/sink.rs:13-19 | of the frames of a batch with the same pad, well, epoch, number and time, and no row yet, the first is what the row holds, each value in its own column |
| Sink.EveryFrameReadsBack | crates/coldbore-ingest/src/sink.rs:50-82 | with one body per identity every inserted frame can be read back, value by value, under its own numbers and event time |
| Sink.Database.BuildColumns | crates/coldbore-ingest/src/sink.rs:50-71 | position by position the parallel columns are the frames' fields |
| Sink.Database.Execute | crates/coldbore-ingest/src/sink.rs:72-81 | the multi-row insert over the columns is the model's insert, with its row count, and the first frame of each new key can be read back from its row |
| Sink.Database.InsertBatch | crates/coldbore-ingest/src/sink.rs:50-82 | all rows or none; an error may hide a commit |
| Sink.Database.InsertBatchWithOffset | crates/coldbore-ingest/src/sink.rs:87-134 | rows and offset take effect together or not at all |
| Sink.StoredIsTheNewest | crates/coldbore-ingest/src/sink.rs:124-146 | after any series of offset upserts by any consumers, the stored offset of each is that of its newest commit |
| Sink.Database.StoredOffset | crates/coldbore-ingest/src/sink.rs:137-146 | the offset of the consumer's newest committed transaction, if it has one |
| Sink.Database.Watermarks | crates/coldbore-ingest/src/sink.rs:23-29 | each well with rows, its newest epoch, and the highest number stored under it |
| IndexAgreement.StepAgrees | crates/coldbore-ingest/src/consume.rs:205-238 | sessions, flushes and flushes of unknown outcome keep index and table in agreement |
| IndexAgreement.RunAgrees | crates/coldbore-ingest/src/consume.rs:89-91 | the agreement holds over every run of one ingest process from an arbitrary table |
| IndexAgreement.KnownOutcomesAreObserved | crates/coldbore-ingest/src/consume.rs:205-238 | a run without an unresolved ambiguous commit leaves no stored row unknown to the index |
| IndexAgreement.IndexCountsTheTablesHoles | crates/coldbore-ingest/src/consume.rs:214-229 | for a well with base b, the total length of open ranges is (max(b, highest stored number) - b) minus the stored rows above b |
| Accounting.SeedFrom | crates/coldbore-ingest/src/consume.rs:89-91 | seeding from the store's marks, in any order, makes exactly the unknown wells known |
| Accounting.AccountFrames | crates/coldbore-ingest/src/consume.rs:224-229 | the tracker is told of every frame of a committed batch once, in the order of the batch |
| UplinkModel.BufferKeeps | crates/coldbore-edge/src/uplink.rs:75-82 | accepting a frame loses exactly the oldest frame of a full buffer |
| UplinkModel.PullKeeps | crates/coldbore-edge/src/uplink.rs:114-129 | the pull loop terminates, only moves frames, and pulls at most one pass beyond 512 |
| UplinkModel.ShuffledKeeps | crates/coldbore-edge/src/uplink.rs:135-137 | the backward swap loop yields a permutation |
| UplinkModel.FillKeeps | crates/coldbore-edge/src/uplink.rs:111-140 | filling the publish queue loses and makes no frame |
| UplinkModel.FillIsLocal | crates/coldbore-edge/src/uplink.rs:130-139 | with validated windows at most 4095 frames rest in the reorder stage and a batch has at most 4095 + 511 + the number of pads frames |
| UplinkModel.NextKeeps | crates/coldbore-edge/src/uplink.rs:98-109 | a pull takes exactly the frame it returns out of custody, or a duplicate out of its queue |
| UplinkDrain.FullPassTakesFronts | crates/coldbore-edge/src/uplink.rs:116-125 | one pass takes exactly the front frame of every non-empty pad whose link is up in that pass, and leaves every other pad alone |
| UplinkDrain.FullPassAppends | crates/coldbore-edge/src/uplink.rs:116-125 | the frames of a pass join the reorder stage behind what is there, lower pads first |
| UplinkDrain.PullEnds | crates/coldbore-edge/src/uplink.rs:114-129 | a pull ends only when the limit is reached or its last pass found every pad with a live link empty |
| UplinkDrain.FillReleases | crates/coldbore-edge/src/uplink.rs:111-140 | a fill releases the whole reorder stage if the fault is off or the stage has a full window, and nothing otherwise |
| UplinkDrain.FillInOrder | crates/coldbore-edge/src/uplink.rs:130-132 | with the fault off, what the reorder stage held goes out first |
| UplinkDrain.NothingToSendWhen | crates/coldbore-edge/src/uplink.rs:98-109 | no frame is given only if nothing waits or is staged, the reorder stage is short of its window, and every pad with a live link is empty or a whole pull has just been taken |
| UplinkDrain.LivePadIsServed | crates/coldbore-edge/src/uplink.rs:98-132 | with the fault off, a frame behind a link that stays up makes the next pull give a frame |
| UplinkDrain.EveryOrderIsPossible | crates/coldbore-edge/src/uplink.rs:135-137 | every order of a batch is the outcome of the swap loop for some random indices |
| UplinkDrain.StartsEmpty | crates/coldbore-edge/src/uplink.rs:60-70 | there is one empty buffer for each configured pad and no other |
| UplinkOrder.ReorderStaysLocal | crates/coldbore-edge/src/uplink.rs:111-140 | over every run with validated windows at most 4095 frames rest in the reorder stage and what is staged never exceeds one released batch |
| UplinkOrder.PerPadOrder | crates/coldbore-edge/src/uplink.rs:75-139 | with the reorder window at most 1, a pad's first attempts are its arrivals in order, followed by what is staged and what its buffer holds; the arrivals missing are exactly the drop-oldest victims, in order |
| UplinkOrder.DownPadHoldsTheLatest | crates/coldbore-edge/src/uplink.rs:75-82 | a pad kept down holds exactly its most recent frames up to the capacity |
| UplinkOrder.DropCounterIsHonestIff | crates/coldbore-edge/src/uplink.rs:77-80 | the drop counter counts exactly the dropped frames if and only if the capacity is at least one or the buffer is not empty |
| UplinkOrder.DropsAreCounted | crates/coldbore-edge/src/uplink.rs:75-82 | over every run the drop counter is at least the number of frames dropped, and exactly that when the capacity is at least one |
| UplinkOrder.BatchGoesOutWhole | crates/coldbore-edge/src/uplink.rs:105-108 | what is staged leaves in order and whole before anything else is pulled, whatever retransmits and duplicates cut in |
| UplinkOrder.ReturnsGoFirst | crates/coldbore-edge/src/uplink.rs:95-104 | retransmits go out first, then injected duplicates, each in their order, before anything else |
| UplinkState.UplinkState.BufferFrame | crates/coldbore-edge/src/uplink.rs:75-82 | the new buffers are the model's, and the drop counter moves when the buffer was at capacity |
| UplinkState.UplinkState.Buffered | crates/coldbore-edge/src/uplink.rs:85-93 | the reported total is the number of frames in custody, duplicates excluded |
| UplinkState.UplinkState.FillPublishQueue | crates/coldbore-edge/src/uplink.rs:111-140 | the loops compute the model's fill and terminate |
| UplinkState.UplinkState.PullFrom | crates/coldbore-edge/src/uplink.rs:116-125 | the in-place pass takes exactly the front frame of every non-empty pad whose link is up, is the model's pass, and counts what it moved |
| UplinkState.UplinkState.ShuffleInPlace | crates/coldbore-edge/src/uplink.rs:135-137 | the in-place swaps compute the model's shuffle |
| UplinkState.UplinkState.NextPublishable | crates/coldbore-edge/src/uplink.rs:98-109 | the next frame and the state left are the model's |
| ClassicCustody.CustodyConserved | crates/coldbore-edge/src/uplink.rs:371-457 | over every run, received + promoted = dropped + held + non-dup pending + confirmed, injected duplicates are queued, on the wire, promoted or spent, and the window holds |
| ClassicCustody.StepKeeps | crates/coldbore-edge/src/uplink.rs:371-457 | each event keeps the books, the pairing of pending frames with awaited confirms, and the window |
| ClassicCustody.ReapKeeps | crates/coldbore-edge/src/uplink.rs:490-524 | however many confirms never resolve, a reap empties both queues, loses nothing, and acknowledges exactly the ids whose confirm was an ack |
| ClassicCustody.PumpAllKeeps | crates/coldbore-edge/src/uplink.rs:371-394 | the whole pump loop keeps custody, fills no more than the window, and a failed publish leaves nothing awaited |
| ClassicRetries.ReapOrder | crates/coldbore-edge/src/uplink.rs:490-524 | whatever confirms resolve, a reap puts exactly the unacked ordinary frames, in publish order, behind what already waits |
| ClassicRetries.TeardownInOrderIff | crates/coldbore-edge/src/uplink.rs:441-455 | a plain teardown leaves the retry queue in sequence order per well if and only if what waited and what is unacked are, and nothing that waited is newer than an unacked frame of its well |
| ClassicRetries.BrokenInOrderIff | crates/coldbore-edge/src/uplink.rs:422-428 | the same for a broken confirm, its own frame among the unacked |
| ClassicRetries.FailedInOrderIff | crates/coldbore-edge/src/uplink.rs:381-392 | the same for a failed publish, which besides must not be newer than anything of its well that waits or is unacked |
| ClassicRetries.RetransmitsInOrderIff | crates/coldbore-edge/src/uplink.rs:381-455 | with nothing waiting and the pending frames in order, teardowns and broken confirms keep the order, and a failed publish does if and only if no unacked frame of its well is older |
| ClassicRetries.NackThenTeardown | crates/coldbore-edge/src/uplink.rs:415-421 | a nacked frame that is published again and then torn down ends behind all the younger pending ones |
| ClassicRetries.NackBreaksTheOrder | crates/coldbore-edge/src/uplink.rs:415-421 | from a fresh start there is a run that publishes 1, 2, 3, hears a nack, publishes again and is torn down, without a failed publish, and that leaves 2, 3, 1 |
| ClassicCustody.PumpAllIsARun | crates/coldbore-edge/src/uplink.rs:371-394 | the pump's whole loop is a run of single publishes, a failed one at most at the end, so every result over runs holds for it |
| ClassicPump.PumpDoesItsWork | crates/coldbore-edge/src/uplink.rs:371-394 | turn by turn the pump puts exactly the frame the uplink gives on the wire, and it stops only at a full window, at an uplink with nothing to give, or at a failed publish, whose frame then waits in front |
| ClassicPump.PumpLeavesNothing | crates/coldbore-edge/src/uplink.rs:371-394 | a pump that ends short of the window without a failure has left nothing that could go out |
| ClassicPump.AckLeads | crates/coldbore-edge/src/uplink.rs:405-414 | an ack settles the oldest frame; with the duplicate fault it queues one copy, the next frame to go out when nothing waits |
| ClassicPump.NackLeads | crates/coldbore-edge/src/uplink.rs:415-421 | a nacked frame goes behind what waits, and is the very next to go out when nothing does |
| ClassicPump.BrokenLeads | crates/coldbore-edge/src/uplink.rs:422-428 | a broken confirm leaves nothing on the wire and nothing that waited out of line |
| ClassicCustody.StepInjects | crates/coldbore-edge/src/uplink.rs:405-413 | injected duplicates never outnumber confirmed ordinary frames, frame by frame, so a confirmed duplicate never injects again |
| ClassicCustody.StepCloses | crates/coldbore-edge/src/uplink.rs:371-457 | nothing is published, promoted or injected that was not accepted |
| ClassicOrder.StepIsTrace | crates/coldbore-edge/src/uplink.rs:371-457 | every publisher step is a series of uplink events with the same arrival, first attempt and drops |
| ClassicOrder.ClassicPerPadOrder | crates/coldbore-edge/src/uplink.rs:371-457 | the same over whole publisher runs with nacks, broken confirms, failed publishes and teardowns |
| ClassicPublisher.ClassicPublisher.Pump | crates/coldbore-edge/src/uplink.rs:371-394 | the loop is the model's pump, pending and awaited confirms stay paired, and it stops short of the window only when nothing could go out |
| ClassicPublisher.ClassicPublisher.OnConfirm | crates/coldbore-edge/src/uplink.rs:399-430 | one resolved confirm settles, requeues or tears down as the model does |
| ClassicPublisher.ClassicPublisher.ReapAll | crates/coldbore-edge/src/uplink.rs:490-524 | the two reaping loops compute the model's reap |
| ClassicPublisher.ClassicPublisher.ApplyOldest | crates/coldbore-edge/src/uplink.rs:402-421 | the outcome is applied to the oldest pending frame; the queue is never empty here |
| ClassicPublisher.ClassicPublisher.OnReceive | crates/coldbore-edge/src/uplink.rs:431-433 | a received frame enters custody |
| StreamCustody.StepKeeps | crates/coldbore-edge/src/uplink_stream.rs:201-347 | under any interleaving of confirms, negative and late confirms, sweeps, failed batches and teardowns ids stay bound, none is live twice, the window holds and the books balance |
| StreamCustody.TeardownEmpties | crates/coldbore-edge/src/uplink_stream.rs:248-261 | a failed batch or a teardown leaves nothing in flight |
| StreamCustody.StagedGrows | crates/coldbore-edge/src/uplink_stream.rs:203-226 | every message of a batch takes a place of its own in the window, at most the room there is |
| StreamStaging.BatchCarries | crates/coldbore-edge/src/uplink_stream.rs:203-226 | the first messages of a batch are the newest waiting frames, newest first, under their own ids, as many as there is room for; the rest are what the uplink gives, under the next ids; each id carries its frame and its own clock reading; and the batch is short only if nothing waits and the uplink gives nothing more |
| StreamStaging.ShortBatch | crates/coldbore-edge/src/uplink_stream.rs:208-226 | a batch that is not full has left nothing to send |
| StreamStaging.PumpDoesItsWork | crates/coldbore-edge/src/uplink_stream.rs:203-263 | the pump sends batch after batch, each with all the room the window has up to 128, and stops only at a full window, with nothing left, or at a failed send |
| StreamStaging.PumpLeavesNothing | crates/coldbore-edge/src/uplink_stream.rs:203-229 | a pump that ends short of the window without a failure has left nothing that could go out |
| StreamStaging.NegativeConfirmLeads | crates/coldbore-edge/src/uplink_stream.rs:284-289 | a frame confirmed negatively is the first message of the next batch, under the id it had |
| StreamStaging.PositiveConfirmLeads | crates/coldbore-edge/src/uplink_stream.rs:274-283 | a positive confirm takes the id off the window for good; with the duplicate fault one copy is queued and goes out next |
| StreamStaging.StaleIff | crates/coldbore-edge/src/uplink_stream.rs:319-323 | an unconfirmed message is swept exactly when more than ten seconds have passed since the clock reading made for it |
| StreamCustody.ResolveBooks | crates/coldbore-edge/src/uplink_stream.rs:270-291 | an ordinary frame is confirmed once and at most one duplicate follows; a confirmed duplicate injects nothing |
| StreamLog.FramesHaveOnePlace | crates/coldbore-edge/src/uplink_stream.rs:192-347 | each accepted frame is in exactly one of: dropped, held, in flight, waiting under its id, confirmed |
| StreamLog.LogIsExact | crates/coldbore-edge/src/uplink_stream.rs:207-226 | over every run with a broker that keeps the first copy per id, the log has every confirmed frame, at most one copy per acceptance without injection and at most two with it |
| StreamLog.LogCopies | crates/coldbore-edge/src/uplink_stream.rs:270-291 | copies in the log are bounded by acceptances plus injected duplicates, and those by acceptances |
| StreamLog.LogHasTheConfirmed | crates/coldbore-edge/src/uplink_stream.rs:274-291 | every positively confirmed frame is in the log |
| StreamPadOrder.StepLeads | crates/coldbore-edge/src/uplink_stream.rs:201-347 | every step of the stream publisher is a series of uplink events whose first attempts are the frames given fresh ids |
| StreamPadOrder.StreamPerPadOrder | crates/coldbore-edge/src/uplink_stream.rs:217-226 | over every run with the reorder window at most 1, a pad's ordinary frames in order of id are its arrivals without the drop-oldest victims |
| StreamLog.PumpAllIsARun | crates/coldbore-edge/src/uplink_stream.rs:203-263 | the pump's whole batch loop, with its drain, is a run of single batches, so every result over runs holds for it |
| StreamOrder.RetransmitsReverse | crates/coldbore-edge/src/uplink_stream.rs:208-216 | frames given back go on top of the retransmit stack and leave in the reverse order, as many as there is room for |
| StreamOrder.KeepsAllIff | crates/coldbore-edge/src/uplink_stream.rs:12-17 | a broker that keeps only the highest id stores every id if and only if first arrivals ascend |
| StreamOrder.HighestOnlyKeepsRetransmitsIff | crates/coldbore-edge/src/uplink_stream.rs:252-259 | after whatever has arrived so far, a highest-id broker keeps the next retransmits too if and only if it has kept everything so far, every retransmitted id it has not seen is above all it has, and those ids wait in descending order |
| StreamOrder.OneLateRetransmitIsLost | crates/coldbore-edge/src/uplink_stream.rs:284-289 | to such a broker even one frame given back before it arrived and after a higher id did is lost |
| StreamPublisher.StreamPublisher.StageBatch | crates/coldbore-edge/src/uplink_stream.rs:204-226 | a batch is the model's: waiting frames first, newest first, then fresh ones; and every message carries the frame its id was first given to |
| StreamPublisher.StreamPublisher.Pump | crates/coldbore-edge/src/uplink_stream.rs:203-263 | the batch loop is the model's, keeps custody, stops short of the window only when nothing could go out, and leaves nothing in flight after a failed send |
| StreamPublisher.StreamPublisher.OnConfirm | crates/coldbore-edge/src/uplink_stream.rs:274-290 | a confirm settles, returns or is ignored as the model says |
| StreamPublisher.StreamPublisher.DrainInflightToRetry | crates/coldbore-edge/src/uplink_stream.rs:338-347 | everything in flight goes back, in some enumeration of the map |
| StreamPublisher.StreamPublisher.Sweep | crates/coldbore-edge/src/uplink_stream.rs:318-331 | exactly the entries older than ten seconds go back, and none is left |
| ConsumerProofs.NeverLosesIff | crates/coldbore-ingest/src/consume.rs:121-143 | no run from an idle session loses a queued usable frame if and only if the batch maximum is at least one |
| ConsumerProofs.StepKeeps | crates/coldbore-ingest/src/consume.rs:121-238 | every delivery, accept, commit, ack, settlement and disconnect keeps tags ordered, truthful and placed |
| ConsumerProofs.UnsettledIsTheBatch | crates/coldbore-ingest/src/consume.rs:169-197 | the unsettled usable deliveries taken and not covered by an ack are exactly the batch, whose largest tag is the next ack's |
| ConsumerProofs.AcksSettleOnlyStored | crates/coldbore-ingest/src/consume.rs:231-236 | a multiple-ack settles only frames already in the table, and poison |
| ConsumerProofs.PathSafe | crates/coldbore-ingest/src/consume.rs:121-238 | over every run a usable queued frame stays queued, unsettled or stored |
| ConsumerSettles.MessagesAreConserved | crates/coldbore-ingest/src/consume.rs:121-238 | over every run, whatever the batch maximum, each queued message is queued, delivered, dead-lettered or settled by an ack, copy for copy |
| ConsumerSettles.SettledIsStored | crates/coldbore-ingest/src/consume.rs:205-238 | whatever an ack has settled in a run, if it was a valid frame, is in the table |
| ConsumerSettles.AckedIsSettled | crates/coldbore-ingest/src/consume.rs:231-237 | once the broker has heard the ack of a committed batch, exactly the deliveries above its newest tag are unsettled, and the valid ones below are stored |
| ConsumerSettles.PoisonIsDeadLettered | crates/coldbore-ingest/src/consume.rs:188-197 | a delivery that is no valid frame ends in the dead-letter queue, once, and leaves batch and tag alone |
| ConsumerSettles.BatchIsLimited | crates/coldbore-ingest/src/consume.rs:121-132 | over every run the batch never grows past its maximum, or past one frame when the maximum is zero |
| Accounting.DeliveriesAreCounted | crates/coldbore-ingest/src/consume.rs:176-196 | after any deliveries the counters have grown by their number, the number flagged as redelivered and the number that are no valid frame |
| ClassicConsumer.ClassicConsumer.StartSession | crates/coldbore-ingest/src/consume.rs:86-91 | the gap tracker is seeded from the store's watermarks |
| ClassicConsumer.ClassicConsumer.Accept | crates/coldbore-ingest/src/consume.rs:169-197 | poison never reaches the batch; counters and session follow the model |
| ClassicConsumer.ClassicConsumer.Flush | crates/coldbore-ingest/src/consume.rs:205-238 | commit, account, ack in that order: new table, index, counters and acked tag for every outcome; consumed = poison + inserted + dup_dropped + batch + discarded |
| ClassicConsumer.ClassicConsumer.OnDelivery | crates/coldbore-ingest/src/consume.rs:121-132 | accept, and flush when the batch is at its maximum; session, counters, index, table and ack or offset follow, flushed or not |
| ClassicConsumer.ClassicConsumer.OnTick | crates/coldbore-ingest/src/consume.rs:137-143 | the timer flushes a non-empty batch and nothing else, with the same account of what follows |
| StreamExact.StreamIngestIsExact | crates/coldbore-ingest/src/consume_stream.rs:65-158 | over every unforced run from the first record, with crashes and commits that time out and land at any time, every state has exactly the valid records up to the stored offset, each covered by one committed batch, if and only if no commit takes effect over a span that begins among records already committed |
| StreamExact.PromptSessionsAreExact | crates/coldbore-ingest/src/consume_stream.rs:57-76 | where doubtful commits are decided before the next session starts, every state is exact and every session resumes at the first uncommitted record |
| StreamExact.TilesOnce | crates/coldbore-ingest/src/consume_stream.rs:196-206 | tiling spans cover each committed offset exactly once |
| StreamIngest.ReplayIsHarmless | crates/coldbore-ingest/src/consume_stream.rs:62-76 | any sessions that start within what was ever committed, late commits included, leave the table the valid records up to the highest committed offset, none up to the stored offset missing |
| StreamIngest.SafeStartIff | crates/coldbore-ingest/src/consume_stream.rs:66-76 | a start position skips nothing, for every log, if and only if it is not beyond the first record never committed |
| StreamIngest.SessionIsItsSteps | crates/coldbore-ingest/src/consume_stream.rs:117-158 | the steps of a session, run to a flush, are one commit of the span it read |
| StreamIngest.ReadsIff | crates/coldbore-ingest/src/consume_stream.rs:142-147 | a session reads a number of records without a flush in between if and only if all but the last leave the batch below its maximum |
| StreamIngest.ForcedReplayReadsAll | crates/coldbore-ingest/src/consume_stream.rs:62-76 | a session forced to the first record that reads to the end has every valid record in its batch, whatever is stored, and its commit leaves them all in the table |
| StreamIngest.ForceIgnoresTheStored | crates/coldbore-ingest/src/consume_stream.rs:66-76 | two states that differ only in the stored offset start a forced session alike |
| StreamIngest.BatchIsLimited | crates/coldbore-ingest/src/consume_stream.rs:142-147 | over every run the batch never grows past its maximum, or past one frame when the maximum is zero |
| StreamExact.ResumesExactlyIff | crates/coldbore-ingest/src/consume_stream.rs:65-70 | over every run, with any forced starts and commits landing at any time, every state would resume at the least offset that no commit ever covered if and only if no commit begins beyond the record after the stored offset and none ends below the stored offset |
| StreamExact.CoveredResumesIff | crates/coldbore-ingest/src/consume_stream.rs:65-76 | over every run whose starts, forced or not, skip no record, the same if and only if the stored offset never moves backwards |
| StreamLate.LateLandingMovesBack | crates/coldbore-ingest/src/sink.rs:124-132 | with any batch maximum from two on there is a run that forces nothing and respects the lock on the offset row, in which a commit lands while the next session is under way and that session moves the stored offset backwards |
| StreamLate.OneFrameBatchesNeverMoveBack | crates/coldbore-ingest/src/consume_stream.rs:142-147 | with a batch maximum of one or zero no such run moves it backwards |
| StreamLate.MovesBackIff | crates/coldbore-ingest/src/consume_stream.rs:142-158 | such a run exists if and only if the batch maximum is at least two |
| StreamConsumer.StreamConsumer.StartSession | crates/coldbore-ingest/src/consume_stream.rs:57-76 | a forced session, or one with nothing stored, starts as configured; any other resumes behind the stored offset |
| StreamConsumer.StreamConsumer.Accept | crates/coldbore-ingest/src/consume_stream.rs:121-143 | poison is counted and skipped but moves the offset |
| StreamConsumer.StreamConsumer.Flush | crates/coldbore-ingest/src/consume_stream.rs:185-219 | rows, offset, index and counters for every outcome of the transaction |
| StreamConsumer.StreamConsumer.OnDelivery | crates/coldbore-ingest/src/consume_stream.rs:117-148 | one record, and a flush at the batch maximum; session, counters, index, table and ack or offset follow, flushed or not |
| StreamConsumer.StreamConsumer.OnTick | crates/coldbore-ingest/src/consume_stream.rs:153-158 | the timer flushes a non-empty batch and nothing else, with the same account of what follows |
| Numbering.NumbersAreAnInterval | crates/coldbore-edge/src/sim.rs:109-142 | each well's numbers are exactly 1, 2, 3, ... without a hole |
| Numbering.IdentitiesAreDistinct | crates/coldbore-edge/src/sim.rs:109-142 | no identity is used twice |
| Numbering.OneFramePerIdentity | crates/coldbore-edge/src/sim.rs:109-142 | each identity has one frame, hence one event time |
| Numbering.SamplesAreTheFloor | crates/coldbore-edge/src/sim.rs:122-126 | after any ticks the samples are the floor of the sum of hz * dt and the accumulator is in [0, 1) |
| Generator.WellSim.Step | crates/coldbore-edge/src/sim.rs:52-90 | the number advances by one and the frame is valid and carries it, with its own time and its four values in their channels |
| Generator.Generator.EmitOne | crates/coldbore-edge/src/sim.rs:133-141 | one more frame of the well, numbered after all its earlier ones, unless the uplink is gone |
| Generator.Generator.OnTick | crates/coldbore-edge/src/sim.rs:115-143 | under any resize, every well of the field and no other makes as many more frames as the accumulator owes, each with the time of its sample and its own values |
| Frames.ValidIff | crates/coldbore-proto/src/frame.rs:53-68 | a frame is valid if and only if it is of version 1 and all four channels are finite numbers |
| Frames.RefusalNamesTheFault | crates/coldbore-proto/src/frame.rs:53-68 | a refusal names the version, or else the first channel in order that is not finite |

## Left out

- Timers, back-off, liveness probes and telemetry: only their outcomes (a step happens, a session ends) are modelled.
- AMQP and stream client calls, exchange topology, the JSON encoding and configuration parsing: their outcomes are inputs.
- Waveforms and floating point: channel values are finite reals, and the sample accumulator is over reals.
- Machine integers: numbers are unbounded, so epoch and seq are taken to be below 2^63, the tracker's seq below 2^64 - 1, and pad and well within their signed columns.
- Edge process death: custody is in memory by design, so a run keeps one edge process and one epoch.
- Stream retention and offsets into truncated history: the log is append-only and complete.
- The broker's deduplication rule: it is not in the repository; one copy per publishing id is assumed, and a highest-id-only rule is treated on its own.
- Late fills at or below a seeded watermark: the code counts them as duplicates, and so does the model.
- Prefetch: any number of deliveries may be unsettled, which allows every run a bound would.
- Valid frames from any other publisher than the edge: others may queue or log only messages that do not parse or validate.
- The gap index over the stream pipeline: `PipelineIndex` composes the classic one; both ingests account through the same tracker.
- Several ingest processes at once: one consumer owns the table and the offset row.
- Dashboard, API services, hub, scenario scoring and scripts: UI and plumbing.
- Control-command validation and the fault box: arbitrary inputs within the validated bounds.
- IndexAgreement.IndexCountsTheTablesHoles: is stated for a well with nothing spilled and no unresolved commit, because past the cap the ranges no longer list every hole.
- ClassicConsumer.ClassicConsumer.Flush: decides an unreported commit at once, because a later landing is a step of the database; ConsumerModel and IndexAgreement have that step.
- StreamConsumer.StreamConsumer.Flush: likewise, with the later landing a step of StreamIngest.
