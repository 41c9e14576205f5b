# Verified models of the Nexus Edge gateway

Dafny models of the parts of Nexus Edge in which many things have to stay consistent at once, with proofs
of what they promise:

- **Batched Modbus and S7 reads** (`modbus_types`, `byte_order`, `conversion`, `range_planner`,
  `greedy_split`, `interval_split`, `plan_properties`, `register_read`, `register_value`, `coil_read`,
  `group_read`, `grouping`, `read_tags`, `s7_planner`): tags are sorted, merged into ranges, read together,
  sliced and decoded in a shared buffer.
  The batched form is proved equal to reading each tag alone exactly where it is, range by range, and the
  plan is proved to need the fewest reads.
- **The ingestion pipeline** (`data_points`, `counting`, `ingestion`, `ingestion_ownership`,
  `ingestion_contents`, `ingestion_safety`, `ingestion_progress`, `ingestion_batches`, `batcher`): callbacks,
  bounded channel, accumulator, batch channel, writers, recycled objects and shutdown as a transition system,
  with one step per channel operation, tick, flush, write and release; and the accumulator once more as an object whose
  methods are runs of that system.
- **OPC UA load shaping** (`load_shaping`, `load_accounting`, `load_theorems`, `load_bound`,
  `load_verdicts`): callers, workers and the health check as processes that interleave at every atomic access
  and channel operation.
- **The OPC UA session pool** (`reconnect_backoff`, `session_pool`, `session_attempts`) and **node cache**
  (`node_cache`).
- **Configuration reconciliation** (`devices`, `config_registry`, `config_sync`): three registries and the
  messages that keep them in agreement.
- **The circuit breaker of gateway-core** (`circuit_breaker`).

Code that updates fields and buffers is modelled by classes, arrays and loops that are proved against
specification functions; concurrent code by a transition system and induction over its runs. `dafny verify
dfyconfig.toml` checks everything.

## Conventions

- Libraries are parameters: the device is a function from address to word or bit plus a decision whether a
  read is answered; the two node parsers are functions; Go's conversions of floating-point numbers, where
  they are not exact or left open, are an argument; the outcome of a connect, of the network, of the
  JSON decoder and the current time are arguments.
- Go's widths are written out where they matter: uint16 addresses wrap, integers narrow when encoded, the
  backoff multiplies in 64 bits. Floating-point values stay bit patterns.
- The contents of a device do not change while one range is read.
- Where Go chooses freely (map order, select, pooled objects, eviction) the model does too.

## What the proofs brought to light

- Greedy planning needs the fewest reads among all splits of the sorted tags into consecutive blocks, for
  all tags that can be planned, overlapping ones included (`PlanIsFewest`); so does S7 planning per group.
- Batched register reads are faithful exactly when no tag's byte order moves bytes of a later tag of its
  range, because decoding reorders the shared response buffer (`BatchingIsFaithfulIff`).
- A little-endian tag with more registers than its data type reads its last registers, a big-endian one its
  first (`WiderTagReads`).
- ReadTags panics on a register tag that has some registers, but fewer than its data type, and if the tags
  can be planned on no others (`CompletesIff`). Tags that arrive by configuration message are not checked
  for this (`services/protocol-gateway/internal/service/config_subscriber.go:555-589`).
- The range path does not check protocol limits. Its plans are well formed exactly when no end of a tag
  wraps and no tags that merge from register 0 on complete the table (`PlanIsSoundIff`).
- A tag without registers at register 0 is such a tag: its last register wraps to 65535, the range that holds
  it is the whole table, its register count wraps to 0, and no tag that is merged into it can be read on any
  device (`BlankTagFillsTable`, `InBufferIff`, `BlankTagBlocksOthers`; for coils `NothingPickedIff`). A tag
  message without a register count gives a tag without registers
  (`services/protocol-gateway/internal/service/config_subscriber.go:584-586`).
- A coil tag with a bit position other than 0, or with several coils, means something else when it is
  batched (`CoilBatchingIsFaithfulIff`).
- Changing a known device to an unsupported protocol leaves the registries in disagreement
  (`UpdateAgreesIff`).
- Together with queues and workers, `maxGlobalInFlight` bounds the load exactly for as many callers at a
  time as it counts (`LoadBoundIff`), because check and increment are split (`SplitCheckIsUnbounded`).
- Nothing but its own expiry, an open breaker or a full queue keeps a control or safety operation from running
  (`UrgentOperationsRun`), while a worker serves control and telemetry only after it saw no safety request
  waiting (`UrgentFirst`).
- The backoff product overflows for configured delays of 2^57 ns and more (`DelayIsLongEnoughIff`).
- A namespace refresh clears the node cache before it has the new table, and any lookup of a URI-based id
  in between may leave a stale entry (`InterruptedRefreshIsTransparentIff`); so may a lookup that a
  disconnect overtakes (`LateLookupsAreTransparentIff`).
- A device that moves loses its old binding before the pool knows whether there is room for the new one
  (`GetLosesBindingIff`).

## Model

| member | source | states |
|---|---|---|
| RegisterRead.BatchingIsFaithfulIff | services/protocol-gateway/internal/adapter/modbus/client.go:469-546 | For every range that holds its tags and whose register count does not wrap, tags without registers included: every tag sees its own device bytes, for all device memories, if and only if no earlier tag of the range moves a byte of a later one |
| RegisterRead.BatchedValuesAreRightIff | services/protocol-gateway/internal/adapter/modbus/client.go:469-546 | The same for decoded values of exact-width numbers: batch equals reading alone on all devices if and only if no such disturbance and every tag may be read alone |
| RegisterRead.RangeReadRefinesAlone | services/protocol-gateway/internal/adapter/modbus/client.go:505-541 | A tag that no earlier tag disturbs gets, from the shared buffer, the value that its own registers spell; that is what reading it alone gives if and only if the protocol limits let it be read alone |
| RegisterRead.FirstVictim | services/protocol-gateway/internal/adapter/modbus/client.go:521-523 | When a tag does disturb a later one, some device memory shows the first victim a byte that is not its own |
| RegisterRead.DisturbsIff | services/protocol-gateway/internal/adapter/modbus/conversion.go:77-104 | Disturbance, a comparison of addresses and byte orders, is exactly that some byte moves out of the other tag |
| RegisterRead.TagIsInBuffer | services/protocol-gateway/internal/adapter/modbus/client.go:507-518 | In such a range the out-of-range branch never fires and the uint16 subtractions do not wrap |
| RegisterRead.InBufferIff | services/protocol-gateway/internal/adapter/modbus/client.go:507-518 | In a range that holds its tags, a tag with registers is out of range, and then on every device, if and only if the range is the whole table, whose register count wraps to 0 |
| RegisterRead.BlankTagBlocksOthers | services/protocol-gateway/internal/adapter/modbus/client.go:364-390 | An instance: with a tag without registers at register 0, no tag of the first hundred registers can be read, on any device |
| RegisterRead.ReadRegisterRange | services/protocol-gateway/internal/adapter/modbus/client.go:469-546 | The loop over one response buffer that decoding keeps changing yields, for any tags, the points of the sequential specification, an error for an unanswered read or a wrong table, or the panic of the first tag that is indexed past its data |
| RegisterRead.DecodeTag | services/protocol-gateway/internal/adapter/modbus/client.go:505-541 | One tag: its value, and the exact buffer that is left behind |
| RegisterRead.CrashesIff | services/protocol-gateway/internal/adapter/modbus/client.go:507-523 | Whether decoding a range panics does not depend on the data: if and only if the response covers a tag with fewer registers than its type |
| ByteOrdering.ReorderBytes | services/protocol-gateway/internal/adapter/modbus/conversion.go:77-104 | In-place reordering of a slice equals the order's permutation and leaves the rest of the buffer alone, at every length |
| ByteOrdering.ReverseInPlace | services/protocol-gateway/internal/adapter/modbus/conversion.go:83-86 | Little-endian: the slice is reversed |
| ByteOrdering.SwapAdjacentInPlace | services/protocol-gateway/internal/adapter/modbus/conversion.go:87-91 | Mid-big-endian: pairs are swapped, an odd last byte stays |
| ByteOrdering.SwapHalvesInPlace | services/protocol-gateway/internal/adapter/modbus/conversion.go:92-99 | Mid-little-endian: halves of four-byte groups are swapped, an incomplete group stays |
| ByteOrdering.OrderNames | services/protocol-gateway/internal/adapter/modbus/conversion.go:77-104 | The four orders on the bytes ABCD |
| ByteOrdering.OrdersMean | services/protocol-gateway/internal/adapter/modbus/conversion.go:77-104 | The four orders at every length: all bytes reversed; pairs swapped, an odd last byte kept; halves of four bytes swapped, an incomplete group kept; nothing moved |
| ByteOrdering.ReorderedInvolution | services/protocol-gateway/internal/adapter/modbus/conversion.go:77-104 | Reordering twice is the identity for every order and length |
| Conversion.ParseValue | services/protocol-gateway/internal/adapter/modbus/conversion.go:13-74 | Decodes the slice as specified, with every error and the panic on too short a slice, for every tag, and leaves the slice in the tag's order |
| Conversion.OutOfBoundsIff | services/protocol-gateway/internal/adapter/modbus/conversion.go:29-70 | A tag is indexed past its own data if and only if it has some registers, but fewer than its type needs |
| Conversion.OneRegisterForInt32 | services/protocol-gateway/internal/adapter/modbus/conversion.go:48-49 | An instance: one register for a 32-bit integer |
| RegisterValue.OneRegisterReads | services/protocol-gateway/internal/adapter/modbus/conversion.go:29-47 | The number that a one-register tag reads alone, for each order: the register or the register with its bytes swapped, with the sign of the type |
| RegisterValue.TwoRegistersRead | services/protocol-gateway/internal/adapter/modbus/conversion.go:48-65 | The number or float bits that a two-register tag reads, for each order, in terms of the two registers |
| RegisterValue.FourRegistersRead | services/protocol-gateway/internal/adapter/modbus/conversion.go:54-70 | The same for four registers |
| RegisterValue.BooleanReads | services/protocol-gateway/internal/adapter/modbus/conversion.go:29-40 | A boolean tag reads bit p of its register, counted from the least significant one, or whether the register is not zero |
| RegisterValue.WiderTagReads | services/protocol-gateway/internal/adapter/modbus/conversion.go:36-70 | A tag with more registers than its type reads the first words in its order, so a little-endian one reads its last registers |
| RegisterValue.WiderBooleanReads | services/protocol-gateway/internal/adapter/modbus/conversion.go:29-40 | The same for boolean tags |
| RegisterValue.WordsOrdered | services/protocol-gateway/internal/adapter/modbus/conversion.go:77-104 | For any number of registers: which register each word of the ordered bytes is, and whether its bytes are swapped |
| RegisterValue.AloneIsRefusedIff | services/protocol-gateway/internal/adapter/modbus/client.go:294-331 | A register tag is refused exactly without registers, with more than 125, or with an end beyond 65535 |
| Conversion.ValueToBytes | services/protocol-gateway/internal/adapter/modbus/conversion.go:154-239 | Encodes as specified, for all data types and values, with every error |
| Conversion.EncodeThenDecode | services/protocol-gateway/internal/adapter/modbus/conversion.go:154-239 | For every integer and type: the round trip keeps the low bits, lands in the type's range, and is the identity if and only if the integer is in that range |
| Conversion.FloatIsWrittenAsInteger | services/protocol-gateway/internal/adapter/modbus/conversion.go:276-338 | A float, which is what a JSON number is, is written to an integer tag as the integer that it truncates to, wherever Go defines the conversion |
| Conversion.EncodeThenDecodeFloat | services/protocol-gateway/internal/adapter/modbus/conversion.go:215-236 | A number written to a floating-point tag is read back with the bit pattern that Go gave it |
| Conversion.OpenFloatIsWritten | services/protocol-gateway/internal/adapter/modbus/conversion.go:276-338 | Other floats, NaN and infinities are written as the integer that the implementation picks |
| Conversion.WriteIsRefusedIff | services/protocol-gateway/internal/adapter/modbus/conversion.go:154-239 | Exactly unknown data types, and booleans or other values for number types, are refused |
| Conversion.EncodeThenDecodeTruth | services/protocol-gateway/internal/adapter/modbus/conversion.go:242-273 | Any value written to a boolean tag is read back as whether it is true or not zero |
| Conversion.EncodeThenDecodeBool | services/protocol-gateway/internal/adapter/modbus/conversion.go:154-239 | The round trip of a boolean is the identity |
| Conversion.DecodeThenEncode | services/protocol-gateway/internal/adapter/modbus/conversion.go:13-74 | Encoding what was decoded gives the bytes back |
| Conversion.DecodeInjective | services/protocol-gateway/internal/adapter/modbus/conversion.go:13-74 | Different bytes decode to different values |
| RangePlanner.SortTagsByAddress | services/protocol-gateway/internal/adapter/modbus/client.go:409-417 | The in-place insertion sort computes the stable sort |
| RangePlanner.SinkIntoPlace | services/protocol-gateway/internal/adapter/modbus/client.go:411-415 | Its inner loop inserts one tag behind all tags of no greater address |
| RangePlanner.SortIsStable | services/protocol-gateway/internal/adapter/modbus/client.go:409-417 | The result is a sorted permutation in which tags of one address keep their order |
| RangePlanner.StableSortIsUnique | services/protocol-gateway/internal/adapter/modbus/client.go:409-417 | There is only one such permutation |
| RangePlanner.BuildRanges | services/protocol-gateway/internal/adapter/modbus/client.go:358-406 | The merging loop, uint16 arithmetic included, computes the greedy plan; buildCoilRanges is the same loop with other limits |
| PlanProperties.PlanIsFewest | services/protocol-gateway/internal/adapter/modbus/client.go:358-406 | No split of the sorted tags into consecutive blocks that respect gap and size limits has fewer reads, for all tags that can be planned: overlapping ones, ones without registers, ones wider than the limit |
| IntervalSplit.SplitsCutCleanly | services/protocol-gateway/internal/adapter/modbus/client.go:374-402 | Where an interval could not join a block, any block that straddles it is still feasible when it is cut down to start there; for the Modbus merge test, and for that of the S7 planner, which also tests the size of the whole block |
| GreedySplit.GreedyStaysAhead | services/protocol-gateway/internal/adapter/modbus/client.go:374-402 | For any such merge test: from a start that no block crosses, greedy merging needs at most as many blocks as any split from an earlier start |
| PlanProperties.PlanIsSplit | services/protocol-gateway/internal/adapter/modbus/client.go:374-402 | The plan is itself such a split |
| PlanProperties.FitsIff | services/protocol-gateway/internal/adapter/modbus/client.go:381-390 | The uint16 merge test on tags whose ends do not wrap is the mathematical one, except when the range starts with the first register of the table and the tag ends with the last |
| PlanProperties.FitsIsMerges | services/protocol-gateway/internal/adapter/modbus/client.go:381-390 | In a plan without a range that is the whole table it is the mathematical one |
| PlanProperties.PlanIsSound | services/protocol-gateway/internal/adapter/modbus/client.go:358-406 | Tags that end before the last register are planned well, and those that the protocol limits let through are such tags: the plan partitions the tags; each range is the exact span of its tags, has no hole beyond the gap limit, and exceeds the size limit only if one tag does |
| PlanProperties.PlanHoldsIff | services/protocol-gateway/internal/adapter/modbus/client.go:358-406 | Every range of a plan spans its tags if and only if no tag reaches beyond register 65535 |
| PlanProperties.PlanWellFormedIff | services/protocol-gateway/internal/adapter/modbus/client.go:374-402 | A planned range is well formed if and only if none of its tags reaches beyond the table and it is not the whole table, whose register count wraps to 0 |
| PlanProperties.PlanIsSoundIff | services/protocol-gateway/internal/adapter/modbus/client.go:358-406 | The plan partitions any tags, and all of its ranges are well formed if and only if the tags can be planned: no end wraps, and no tags that merge from register 0 on complete the table |
| PlanProperties.WholeRangeIff | services/protocol-gateway/internal/adapter/modbus/client.go:374-402 | That a planned range is the whole table can be read off the sorted tags: a tag at register 0, the first one or one wider than the size limit, from which tags merge until one ends with register 65535 |
| PlanProperties.EndBeforeLastIsPlannable | services/protocol-gateway/internal/adapter/modbus/client.go:358-406 | Tags that end before the last register, and have registers if they are at register 0, can be planned |
| PlanProperties.NarrowIsPlannable | services/protocol-gateway/internal/adapter/modbus/client.go:358-406 | So can tags of which no two, with a gap between them, could span the table, the last register included |
| PlanProperties.BlankTagFillsTable | services/protocol-gateway/internal/adapter/modbus/client.go:364-366 | A tag without registers at register 0 makes the range that it is planned in the whole table, whatever the other tags |
| PlanProperties.UnaddressableTagEscapesItsRange | services/protocol-gateway/internal/adapter/modbus/client.go:381-399 | An instance: the range path does not check protocol limits, and a tag beyond them wraps uint16 and ends outside its own range |
| PlanProperties.WholeTableIsMerged | services/protocol-gateway/internal/adapter/modbus/client.go:384-390 | The other instance: two tags that together are the whole table are merged, because its size wraps to 0 |
| CoilRead.PackCoils | services/protocol-gateway/internal/adapter/modbus/client.go:1128-1135 | Packing builds the bit-packed bytes of sections 6.1 and 6.11 of the MODBUS Application Protocol Specification V1.1b3 |
| CoilRead.PackedBit | services/protocol-gateway/internal/adapter/modbus/client.go:1128-1135 | Bit i mod 8 of byte i div 8 is value i, for any number of values, and padding is zero |
| CoilRead.ReadCoilRange | services/protocol-gateway/internal/adapter/modbus/client.go:653-716 | Each tag of the range gets the bit at its relative position; an unanswered read or a wrong table is an error |
| CoilRead.PickedIsOwnCoil | services/protocol-gateway/internal/adapter/modbus/client.go:688-699 | In a range that holds its tags and whose coil count does not wrap, that bit is the own coil of any tag with coils |
| CoilRead.NothingPickedIff | services/protocol-gateway/internal/adapter/modbus/client.go:688-697 | Every tag with coils gets the error instead, on every device, if and only if the range is the whole table |
| CoilRead.BlankTagBlocksOthers | services/protocol-gateway/internal/adapter/modbus/client.go:611-634 | An instance: with a tag without coils at coil 0, no tag of the first thousand coils can be read |
| CoilRead.AloneMeans | services/protocol-gateway/internal/adapter/modbus/conversion.go:13-33 | What a coil tag read alone means: the named bit of the first eight coils, or whether any of them is on |
| CoilRead.CoilBatchingIsFaithfulIff | services/protocol-gateway/internal/adapter/modbus/client.go:653-716 | For every tag of such a range, without coils or not: batch equals alone on every device if and only if the tag may be read alone and asks for bit 0, or for a single coil without a bit position |
| ReadTags.ReadAll | services/protocol-gateway/internal/adapter/modbus/client.go:221-244 | For any tags, any pattern of failed reads and any cancellation: it panics exactly when a group does; else the points of each register type are exactly those of its group, one per tag; and without undersized register tags it never panics |
| ReadTags.CompletesIff | services/protocol-gateway/internal/adapter/modbus/client.go:221-244 | ReadTags on tags that can be planned, tags without registers included, completes on every device if and only if no holding or input register tag has some registers, but fewer than its type |
| ReadTags.EndBeforeLastArePlannable | services/protocol-gateway/internal/adapter/modbus/client.go:334-338 | Among these are all tags that end before the last register of their table and have registers if they start it |
| ReadTags.NoneTooSmallCompletes | services/protocol-gateway/internal/adapter/modbus/client.go:221-244 | That guard suffices for all tags: without registers, beyond the table, of unknown register types |
| ReadTags.CompletesIffNoRangeCrashes | services/protocol-gateway/internal/adapter/modbus/client.go:421-546 | For all tags: exactly if no planned range covers an undersized tag |
| ReadTags.PointsAreRight | services/protocol-gateway/internal/adapter/modbus/client.go:221-244 | For any tags every point is the one that the plan of its group determines |
| ReadTags.SafePointsAreOwn | services/protocol-gateway/internal/adapter/modbus/client.go:221-244 | A tag that may be read alone and that no other tag of its group disturbs gets the point that ReadTag gives, unless its group was cut off or the read of its range failed, whatever the other tags are |
| ReadTags.BatchingIsInvisible | services/protocol-gateway/internal/adapter/modbus/client.go:221-244 | If every planned read of its group is answered and nothing is cancelled, the point of such a tag is the one that ReadTag gives, from the table that its register type names |
| ReadTags.OwnRegisterOrCoil | services/protocol-gateway/internal/adapter/modbus/client.go:221-244 | From end to end: a big-endian unsigned holding register tag gets what that register holds, a single coil tag whether that coil is on |
| GroupRead.GroupPointIs | services/protocol-gateway/internal/adapter/modbus/client.go:421-466 | For any group, the point of tag j in range i of the plan: cut off if one of the group's ranges was found cancelled, else failed if the read of range i was left unanswered, else the value decoded at its place in the range |
| GroupRead.GroupGivesOwnValuesIff | services/protocol-gateway/internal/adapter/modbus/client.go:421-546 | A group of exact-width numbers that can be planned is given the values of reading each tag alone, on every device, if and only if all may be read alone and none disturbs a later one of its range |
| GroupRead.PlannedReadIsAllowed | services/protocol-gateway/internal/adapter/modbus/types.go:98-104 | For readable tags every planned read is within the 125 registers or 2000 coils of the protocol, and within 100 or 1000 unless one tag is as long |
| GroupRead.PlannedHolesAreSmall | services/protocol-gateway/internal/adapter/modbus/types.go:98-104 | Every register of a read is a tag's or at most 10 behind one, every coil at most 32 |
| GroupRead.GroupReadsAreFewest | services/protocol-gateway/internal/adapter/modbus/client.go:432-433 | No split of a group with these limits has fewer reads |
| GroupRead.PointSaysWhy | services/protocol-gateway/internal/adapter/modbus/client.go:448-460 | The error points of lines 457-459 are given exactly for a failed read, those of lines 233-236 exactly for a cancellation |
| GroupRead.GroupRunTags | services/protocol-gateway/internal/adapter/modbus/client.go:421-466 | A group yields exactly one point for each of its tags |
| GroupRead.GroupCompletesIff | services/protocol-gateway/internal/adapter/modbus/client.go:421-546 | A group completes on every device if and only if no range of its plan covers an undersized tag |
| GroupRead.ReadTagGroup | services/protocol-gateway/internal/adapter/modbus/client.go:421-466 | The loop over the planned ranges: its points, the first cancellation, or the first panic |
| GroupRead.ReadRanges | services/protocol-gateway/internal/adapter/modbus/client.go:439-465 | The same for any ranges |
| GroupRead.ReadRange | services/protocol-gateway/internal/adapter/modbus/client.go:469-546 | One range: its tags' points in order, error points for all of them, or the panic |
| GroupRead.DisjointOrBigEndianIsSafe | services/protocol-gateway/internal/adapter/modbus/client.go:469-546 | A tag that may be read alone, and that only big-endian tags overlap, is safe to batch |
| Grouping.GroupBy | services/protocol-gateway/internal/adapter/modbus/client.go:343-353 | Grouping keeps every tag, in order, under its own key |
| S7Planner.BuildRanges | services/protocol-gateway/internal/adapter/s7/batch.go:69-149 | For any group order: every tag is in exactly one range of its own area and block, ranges are well formed, each was opened because it had to be, and no group has more ranges than any split of its tags, in the order in which its ranges hold them, into consecutive blocks within the limits |
| S7Planner.MergeGroup | services/protocol-gateway/internal/adapter/s7/batch.go:90-144 | The merging loop of one group: its ranges are well formed, hold exactly its tags in order, and are as few as any split of these into consecutive blocks within the limits allows |
| S7Planner.MergingStep | services/protocol-gateway/internal/adapter/s7/batch.go:107-143 | What every turn of the loop keeps, whether the tag joins or opens a range |
| S7Planner.SliceIsOwnData | services/protocol-gateway/internal/adapter/s7/batch.go:96-101 | Slicing a range's data at a tag's offset gives the tag's own data, for any memory |
| DataPoints.ParsePayload | services/data-ingestion/internal/domain/datapoint.go:82-155 | The result is a function of the message alone, whichever object the pool hands out; a rejected message sends its object back zeroed |
| DataPoints.Fill | services/data-ingestion/internal/domain/datapoint.go:97-152 | Field by field on a zeroed object, with the late rejections |
| DataPoints.OverwritingIsTransparentIff | services/data-ingestion/internal/domain/datapoint.go:97-152 | Parsing into an object does not show its past if and only if the four fields that parsing may skip were clear |
| DataPoints.ParsedPointIsSane | services/data-ingestion/internal/domain/datapoint.go:107-148 | An accepted point has exactly one value, a known quality and a time in the accepted window |
| DataPoints.RejectedIff | services/data-ingestion/internal/domain/datapoint.go:82-152 | Exactly which messages are rejected: sizes, a missing or overlong value, and times more than an hour ahead or thirty days behind |
| DataPoints.ParsedPointSays | services/data-ingestion/internal/domain/datapoint.go:97-152 | What each field of an accepted point is |
| DataPoints.QualitySurvives | services/protocol-gateway/internal/domain/datapoint.go:30-38 | What the gateway publishes as good, uncertain or anything else is stored as good, uncertain or bad |
| DataPoints.UnknownQualityIsGood | services/data-ingestion/internal/domain/datapoint.go:158-173 | Any other name is stored as good |
| DataPoints.Pool.Acquire | services/data-ingestion/internal/domain/datapoint.go:249-251 | A pooled object or a new one, zeroed either way |
| DataPoints.Pool.Release | services/data-ingestion/internal/domain/datapoint.go:254-271 | The object goes back fully zeroed |
| DataPoints.PointBatch.Release | services/data-ingestion/internal/domain/datapoint.go:209-221 | Every point of the batch goes back zeroed and the batch keeps none |
| IngestionSafety.Safety | services/data-ingestion/internal/service/batcher.go:124-233 | In every reachable state: no object in two places, pooled objects zero, accepted messages = flushed batches + current batch + channel in order, each flushed batch waiting once or written once, batch sizes, channel bounds, shutdown protocol, counters |
| IngestionSafety.ShutdownDeliversEverything | services/data-ingestion/internal/service/batcher.go:199-233 | After a completed shutdown the accepted messages are exactly the flushed batches in order, and each was given to WriteBatch exactly once with the points its messages parse to |
| IngestionSafety.InvIsKept | services/data-ingestion/internal/service/batcher.go:124-233 | Every step of every goroutine keeps all of it |
| IngestionSafety.ProtocolIsKept | services/data-ingestion/internal/service/batcher.go:199-207 | The batch channel is closed once, by the accumulator's last act; nothing is sent to it or closed after that; writers exit only then |
| IngestionSafety.BoundsAreKept | services/data-ingestion/internal/service/batcher.go:155-165 | Flushed batches are non-empty and within the batch size, channels within their capacity |
| IngestionSafety.AccountsAreKept | services/data-ingestion/internal/service/ingestion.go:147-187 | Every received point is accepted, dropped, discarded, or still with its callback |
| IngestionOwnership.AliasFreedomIsKept | services/data-ingestion/internal/domain/datapoint.go:249-271 | No object is in two of pool, callback, channel, current batch, queue, writer, nor twice in one |
| IngestionOwnership.OwnersAreConserved | services/data-ingestion/internal/service/batcher.go:124-233 | Accumulator and writers pass on every object; only a dropping callback loses one |
| IngestionOwnership.EachOnceIsKept | services/data-ingestion/internal/service/batcher.go:179-233 | Every flushed batch waits in one place or has been written once, whichever branch of the flush select is taken |
| IngestionContents.ReleaseIsInvisible | services/data-ingestion/internal/domain/datapoint.go:209-221 | Releasing a batch changes no object that is still in use |
| IngestionContents.ParseContent | services/data-ingestion/internal/domain/datapoint.go:82-155 | Parsing into a recycled object gives the message's point and disturbs nothing in flight |
| IngestionContents.ReceiveContent | services/data-ingestion/internal/service/batcher.go:155-165 | Moving a point from channel to batch, with or without a flush, loses and reorders nothing |
| IngestionContents.SendContent | services/data-ingestion/internal/service/ingestion.go:172-186 | The non-blocking send: accepted, dropped when full, or discarded when closed |
| IngestionProgress.EveryStepIsProgress | services/data-ingestion/internal/service/batcher.go:94-233 | After the channel is closed every step that is not a stutter lowers the remaining work |
| IngestionProgress.WorkIsFinite | services/data-ingestion/internal/service/batcher.go:94-233 | So a run makes at most as many steps as the work left at the close |
| IngestionProgress.NeverStuckIff | services/data-ingestion/internal/service/batcher.go:179-233 | Before completion somebody can go on, except exactly when a flush waits with no writer and no cancellation |
| IngestionBatches.BatchesAreFull | services/data-ingestion/internal/service/batcher.go:155-165 | In every run each flushed batch has exactly the configured size, except at most one for each tick and one for the end of the stream |
| IngestionBatches.BatchesAreFew | services/data-ingestion/internal/service/batcher.go:155-184 | So n accepted points make at most n / size batches besides those |
| IngestionBatches.TickFlushes | services/data-ingestion/internal/service/batcher.go:168-175 | A tick leaves nothing unflushed |
| IngestionBatches.OldestBatchFirst | services/data-ingestion/internal/service/batcher.go:210-233 | In every reachable state a writer takes the batch that was flushed before all others in the batch channel |
| IngestionBatches.PointIsLostIff | services/data-ingestion/internal/service/ingestion.go:172-186 | A point is dropped exactly when the channel is open and full, discarded exactly when it is closed |
| IngestionBatches.FlushWaitsIff | services/data-ingestion/internal/service/batcher.go:186-195 | In every reachable state a flush waits exactly while two batches a writer are queued and nothing is cancelled |
| IngestionBatches.ServiceActsFreely | services/data-ingestion/internal/service/ingestion.go:147-160 | Shutdown, close and cancel may come at any time, and messages until the shutdown |
| Batching.Batcher.BeginFlush | services/data-ingestion/internal/service/batcher.go:179-184 | The current batch is taken, counted and replaced |
| Batching.Batcher.FinishFlush | services/data-ingestion/internal/service/batcher.go:186-195 | The select: queued, or written directly and released when cancelled |
| Batching.Batcher.AddToBatch | services/data-ingestion/internal/service/batcher.go:155-165 | Is a run of the pipeline's accumulator that starts with a receive |
| Batching.Batcher.FlushIfNotEmpty | services/data-ingestion/internal/service/batcher.go:168-175 | Is a run that starts with a tick and leaves nothing to flush |
| Batching.Batcher.FlushAndClose | services/data-ingestion/internal/service/batcher.go:199-207 | Is a run that flushes the rest and closes the batch channel once |
| Batching.Batcher.Drain | services/data-ingestion/internal/service/batcher.go:124-152 | The loop during shutdown empties the channel, batches every point and ends closed |
| LoadTheorems.CountersAreExact | services/protocol-gateway/internal/adapter/opcua/loadshaping.go:186-230 | In every interleaving globalInFlight = immediate + reserved + queued + worker-held operations, and each session's inFlight is that count for the session |
| LoadTheorems.NothingLeaks | services/protocol-gateway/internal/adapter/opcua/loadshaping.go:76-107 | When all operations have finished every counter is zero |
| LoadTheorems.AnsweredOnce | services/protocol-gateway/internal/adapter/opcua/loadshaping.go:73-107 | A request is answered at most once, its function runs at most once, and only if the answer is its result |
| LoadTheorems.ExpiredNeverRuns | services/protocol-gateway/internal/adapter/opcua/loadshaping.go:73-86 | What has expired when the worker looks never runs, in any continuation |
| LoadTheorems.TelemetryNeverQueues | services/protocol-gateway/internal/adapter/opcua/loadshaping.go:160-175 | With a brownout fraction within 0 and 1 the telemetry queue is empty in every reachable state |
| LoadBound.TelemetryQueuesIff | services/protocol-gateway/internal/adapter/opcua/loadshaping.go:160-201 | Telemetry is queued in some reachable state if and only if the threshold lies above the limit and there is a queue |
| LoadTheorems.HeadsForQueueIff | services/protocol-gateway/internal/adapter/opcua/loadshaping.go:160-175 | One decision: telemetry heads for the queue exactly when the load is between limit and threshold |
| LoadTheorems.BrownoutIsWitnessed | services/protocol-gateway/internal/adapter/opcua/loadshaping.go:163-173 | Each entry has an observed load at or above the threshold behind it, each exit one below half of it, and the flag is what the last change made it |
| LoadVerdicts.VerdictIsExact | services/protocol-gateway/internal/adapter/opcua/loadshaping.go:115-230 | Over every run: an operation that has finished has run exactly once, unless one of eight reasons turned it away, and then never; telemetry alone is turned away for the load; the answer to a queued request says which it was |
| LoadVerdicts.UrgentOperationsRun | services/protocol-gateway/internal/adapter/opcua/loadshaping.go:130-158 | A control or safety operation that does not expire, meets no open breaker and finds room in its queue runs, whatever the load |
| LoadVerdicts.NoTelemetryInBrownout | services/protocol-gateway/internal/adapter/opcua/loadshaping.go:132-135 | Telemetry that arrives in brownout, while brownout lasts, never runs and is never counted |
| LoadVerdicts.HighLoadBringsBrownout | services/protocol-gateway/internal/adapter/opcua/loadshaping.go:163-173 | Telemetry turned away at the threshold does not finish before brownout is on |
| LoadVerdicts.LowLoadEndsBrownout | services/protocol-gateway/internal/adapter/opcua/loadshaping.go:236-240 | An operation admitted below half of the threshold does not run before brownout is off |
| LoadVerdicts.HealthCheckDecides | services/protocol-gateway/internal/adapter/opcua/loadshaping.go:246-262 | An undisturbed health check makes the flag what the load demands |
| LoadVerdicts.ThresholdIs | services/protocol-gateway/internal/adapter/opcua/loadshaping.go:160-161 | The threshold is the whole part of the fraction of the limit |
| LoadVerdicts.UrgentFirst | services/protocol-gateway/internal/adapter/opcua/loadshaping.go:47-66 | A worker takes control requests only after it found no safety request since its last one, telemetry only after it found neither |
| LoadVerdicts.SafetyIsServed | services/protocol-gateway/internal/adapter/opcua/loadshaping.go:47-66 | While a safety request waits every worker that looks can take it, and one that starts to look can do nothing else |
| LoadVerdicts.WaitingRequestIsReached | services/protocol-gateway/internal/adapter/opcua/loadshaping.go:47-66 | A worker that looks for work while any request waits can go on |
| LoadVerdicts.FirstComeFirstServed | services/protocol-gateway/internal/adapter/opcua/loadshaping.go:47-66 | Within a priority the requests taken, followed by those that wait, are those that waited, followed by those that came |
| LoadBound.LoadIsBounded | services/protocol-gateway/internal/adapter/opcua/loadshaping.go:160-222 | In every reachable state the load is at most the callers at work in the function, two queues and the workers |
| LoadBound.LoadBoundIff | services/protocol-gateway/internal/adapter/opcua/loadshaping.go:160-222 | Limit + two queues + workers bounds the load of all runs with at most n callers at work if and only if n is at most the limit |
| LoadTheorems.UnsplitLoadIsBounded | services/protocol-gateway/internal/adapter/opcua/loadshaping.go:160-222 | When check and increment are one step, immediate operations stay within the limit, and the load exceeds limit + two queues + workers only by operations between increment and enqueue |
| LoadTheorems.SplitCheckIsUnbounded | services/protocol-gateway/internal/adapter/opcua/loadshaping.go:160-222 | The code splits them: for every n some interleaving has n operations in flight |
| LoadAccounting.InvIsKept | services/protocol-gateway/internal/adapter/opcua/loadshaping.go:38-258 | The invariant behind these is kept by every action of callers, workers and health check |
| LoadAccounting.PlacedIsKept | services/protocol-gateway/internal/adapter/opcua/loadshaping.go:47-66 | A queued request is in one queue once, one being worked on is with one worker |
| LoadAccounting.CallerMoveCounts | services/protocol-gateway/internal/adapter/opcua/loadshaping.go:186-230 | Each action of a caller changes the counters exactly as it changes the operation's place |
| LoadAccounting.WorkerMoveCounts | services/protocol-gateway/internal/adapter/opcua/loadshaping.go:76-107 | The same for workers |
| SessionPool.ConnectionPool.GetClient | services/protocol-gateway/internal/adapter/opcua/pool.go:270-307 | Bindings and sessions afterwards, for a move, an existing session, an exhausted pool, a client error and a failed connect; and what the backoff allowed |
| SessionPool.ConnectionPool.FromExisting | services/protocol-gateway/internal/adapter/opcua/pool.go:309-364 | Binds the device once and connects when the backoff allows |
| SessionPool.ConnectionPool.CreateNewSession | services/protocol-gateway/internal/adapter/opcua/pool.go:366-414 | A session with its first device, kept even when the connect fails |
| SessionPool.ConnectionPool.RemoveClient | services/protocol-gateway/internal/adapter/opcua/pool.go:992-1031 | The device goes, and its session if it was the last one |
| SessionPool.ConnectionPool.FindReapable | services/protocol-gateway/internal/adapter/opcua/health.go:338-361 | Exactly the sessions that look idle or too old |
| SessionPool.ConnectionPool.Reap | services/protocol-gateway/internal/adapter/opcua/health.go:367-414 | Exactly the listed sessions that are still idle or too old when each is looked at go, with exactly their devices' bindings |
| SessionPool.ConnectionPool.DeleteBindings | services/protocol-gateway/internal/adapter/opcua/health.go:406-410 | The bindings that still belong to the session |
| SessionPool.ConnectionPool.Close | services/protocol-gateway/internal/adapter/opcua/pool.go:1035-1077 | Every session is disconnected and both maps are empty |
| SessionPool.PooledSession.Connect | services/protocol-gateway/internal/adapter/opcua/session.go:101-141 | One connect attempt moves the backoff as specified |
| SessionPool.GetLosesBindingIff | services/protocol-gateway/internal/adapter/opcua/pool.go:280-306 | A call costs a device its binding exactly when it had moved away and its new endpoint got no session; other devices keep theirs |
| SessionPool.GotMeans | services/protocol-gateway/internal/adapter/opcua/pool.go:270-307 | A device is served exactly where there is a session or room for one, and is then bound to that endpoint and no other |
| SessionPool.RemovedMeans | services/protocol-gateway/internal/adapter/opcua/pool.go:992-1031 | The device is bound nowhere, others stay, and its session goes exactly if it was the last |
| SessionPool.KeptMeans | services/protocol-gateway/internal/adapter/opcua/health.go:406-411 | Exactly the reaped sessions and their bindings go |
| SessionPool.SurvivesIff | services/protocol-gateway/internal/adapter/opcua/session.go:143-159 | A session outlives a series of looks exactly if at each of them it has been used or, with subscriptions, has published within the idle timeout, and is not too old |
| SessionPool.ReapableStays | services/protocol-gateway/internal/adapter/opcua/session.go:143-159 | What is idle or too old stays so until it is used |
| SessionPool.RemoveUndoesGet | services/protocol-gateway/internal/adapter/opcua/pool.go:992-1031 | Removing a device that was not bound before undoes getting it, session included |
| SessionPool.BindKeepsInverse | services/protocol-gateway/internal/adapter/opcua/pool.go:313-323 | A new binding keeps the two maps inverse |
| SessionPool.DropKeepsInverse | services/protocol-gateway/internal/adapter/opcua/health.go:406-411 | So does dropping a session with its bindings |
| SessionPool.NoDeviceInTwoSessions | services/protocol-gateway/internal/adapter/opcua/pool.go:280-294 | Inverse maps put no device into two sessions |
| ReconnectBackoff.DelayIsCappedDoubling | services/protocol-gateway/internal/adapter/opcua/session.go:112-138 | The delay is min(base * 2^min(k-1,6), 5 min), between 5 s and 5 min, grows with k, and is 5 min from the seventh failure on |
| ReconnectBackoff.DelayIsLongEnoughIff | services/protocol-gateway/internal/adapter/opcua/session.go:134-138 | With 64-bit overflow, the lower bound holds for every k if and only if the configured delay is below 2^57 ns |
| ReconnectBackoff.AttemptsAreSpaced | services/protocol-gateway/internal/adapter/opcua/pool.go:336-350 | n failing attempts span at least the sum of their delays |
| SessionAttempts.AnswerIsExact | services/protocol-gateway/internal/adapter/opcua/pool.go:309-364 | The answer to every call of every sequence of calls, with lost connections and successes in between: the client, a new attempt, or backoff exactly as long as the last failed attempt and their number since the last success demand |
| SessionAttempts.AttemptsAreFailing | services/protocol-gateway/internal/adapter/opcua/pool.go:336-350 | For calls at any times whose connects fail, the attempts let through are a run of failing attempts |
| SessionAttempts.CallsAreSpaced | services/protocol-gateway/internal/adapter/opcua/pool.go:336-350 | So they are spaced by their delays, and by five seconds at least |
| SessionAttempts.LaterCallIsLetThrough | services/protocol-gateway/internal/adapter/opcua/session.go:97-99 | A call after the delay is let through |
| SessionAttempts.CallAgainAndAgain | services/protocol-gateway/internal/adapter/opcua/pool.go:309-364 | Calls of GetClient on a live session give these answers |
| ReconnectBackoff.SchedulesInSeconds | services/protocol-gateway/internal/adapter/opcua/session.go:112-138 | The delays in seconds: 60, 120, 240, 300 for too many sessions; 30, 60, 120, 240, 300 for EOF; 5, 10, 20, 40, 80, 160, 300 for others |
| ReconnectBackoff.ConfiguredDelayIsDoubled | services/protocol-gateway/internal/adapter/opcua/session.go:112-138 | A longer configured delay is doubled likewise |
| ReconnectBackoff.LateAttemptsAreRare | services/protocol-gateway/internal/adapter/opcua/health.go:253-268 | After six failures, one attempt per five minutes at most |
| NodeCache.Client.GetNodeID | services/protocol-gateway/internal/adapter/opcua/client.go:792-834 | Hit or miss, the result is what parsing the string now would give; the cache stays transparent and within its size |
| NodeCache.Client.GetNodeIDForTag | services/protocol-gateway/internal/adapter/opcua/client.go:838-853 | A tag's own namespace URI comes before any namespace in its id |
| NodeCache.Client.Connect | services/protocol-gateway/internal/adapter/opcua/client.go:88-177 | Connecting need not clear the cache when lookups are indivisible, because nothing in it depends on a namespace array |
| NodeCache.Client.Disconnect | services/protocol-gateway/internal/adapter/opcua/client.go:180-211 | Cache and namespace table are cleared |
| NodeCache.Client.RefreshNamespaceTable | services/protocol-gateway/internal/adapter/opcua/client.go:958-965 | The cache is empty and the table is the server's, if it answered |
| NodeCache.Client.UpdateNamespaceTable | services/protocol-gateway/internal/adapter/opcua/client.go:911-938 | The index map is built from the array |
| NodeCache.Evict | services/protocol-gateway/internal/adapter/opcua/client.go:818-829 | Arbitrary eviction keeps nine tenths, unchanged |
| NodeCache.TableIsRight | services/protocol-gateway/internal/adapter/opcua/client.go:925-930 | A URI leads to the last index that lists it |
| NodeCache.WithNamespaceReplaces | services/protocol-gateway/internal/adapter/opcua/client.go:890-908 | Setting a namespace index replaces any earlier one |
| NodeCache.WithNamespaceReplacesUri | services/protocol-gateway/internal/adapter/opcua/client.go:890-908 | The same for an id with a namespace URI |
| NodeCache.TagMeans | services/protocol-gateway/internal/adapter/opcua/client.go:838-908 | A tag with a listed URI means its id under the last index that lists it, with an unlisted one nothing, without one the id itself |
| NodeCache.DecimalIsRight | services/protocol-gateway/internal/adapter/opcua/client.go:890-908 | The index is written in decimal |
| NodeCache.LateLookupsAreTransparentIff | services/protocol-gateway/internal/adapter/opcua/client.go:792-834 | Lookups that parsed under earlier arrays and insert after the cache was cleared, by a refresh or by a disconnect, leave it right, whatever the parser, if and only if each looked up an id without URI, found no array, or found the present one |
| NodeCache.InterruptedRefreshIsTransparentIff | services/protocol-gateway/internal/adapter/opcua/client.go:958-965 | For lookups between clearing and updating: if and only if the array has not changed, there was none before, or no id looked up is based on a URI |
| NodeCache.StaleEntry | services/protocol-gateway/internal/adapter/opcua/client.go:792-834 | Any other lookup may leave a stale entry, whatever else is looked up |
| NodeCache.RestartedServer | services/protocol-gateway/internal/adapter/opcua/client.go:958-965 | An instance |
| NodeCache.PlainIdsAreSafe | services/protocol-gateway/internal/adapter/opcua/client.go:805-810 | Ids without a namespace URI are never at risk |
| ConfigRegistry.UpdateAgreesIff | services/protocol-gateway/internal/service/config_subscriber.go:732-791 | One create or update leaves the registries in agreement if and only if the protocol is supported or the device is new |
| ConfigRegistry.BulkAgreesIff | services/protocol-gateway/internal/service/config_subscriber.go:303-337 | A bulk sync from any weakly consistent state ends in agreement if and only if every id's last device is supported, or the id was never known |
| ConfigRegistry.BulkIsExact | services/protocol-gateway/internal/service/config_subscriber.go:318-336 | With supported protocols: full agreement, exactly the incoming ids, the last duplicate wins |
| ConfigRegistry.BulkConverges | services/protocol-gateway/internal/service/config_subscriber.go:318-336 | The state before does not matter, and repeating the sync changes nothing |
| ConfigRegistry.DeleteAgrees | services/protocol-gateway/internal/service/config_subscriber.go:794-812 | Deleting keeps agreement and is idempotent |
| ConfigRegistry.RunsAgree | services/protocol-gateway/internal/service/config_subscriber.go:281-422 | Whole runs of messages keep the weak invariant, keep agreement with supported protocols, and any supported bulk sync restores it |
| ConfigRegistry.AddIsUpdate | services/protocol-gateway/internal/service/config_subscriber.go:732-791 | Adding and updating do the same |
| ConfigRegistry.AgreeMeans | services/protocol-gateway/cmd/gateway/main.go:207-252 | Agreement id by id is: equal maps for the command handler, and the enabled devices, as the same objects, for the pollers |
| ConfigSync.PollingService.RegisterDevice | services/protocol-gateway/internal/service/polling.go:245-278 | An existing id is an error, a disabled device is skipped, an enabled one is there |
| ConfigSync.PollingService.UnregisterDevice | services/protocol-gateway/internal/service/polling.go:281-309 | The id goes; an unknown id is an error |
| ConfigSync.PollingService.ReplaceDevice | services/protocol-gateway/internal/service/polling.go:316-405 | An enabled device is registered or replaced, a disabled one dropped, without an error |
| ConfigSync.CommandHandler.AddDevice | services/protocol-gateway/internal/service/command_handler.go:507-514 | The tag index matches the new object's tags |
| ConfigSync.CommandHandler.RemoveDevice | services/protocol-gateway/internal/service/command_handler.go:517-524 | Device and index go together |
| ConfigSync.ConfigSubscriber.OnAddDevice | services/protocol-gateway/cmd/gateway/main.go:209-226 | The add callback |
| ConfigSync.ConfigSubscriber.OnEditDevice | services/protocol-gateway/cmd/gateway/main.go:228-242 | The edit callback |
| ConfigSync.ConfigSubscriber.UpdateDeviceFromConfig | services/protocol-gateway/internal/service/config_subscriber.go:760-791 | All three registries and the error, with the rollback of a failed add |
| ConfigSync.ConfigSubscriber.AddDeviceFromConfig | services/protocol-gateway/internal/service/config_subscriber.go:732-757 | The same |
| ConfigSync.ConfigSubscriber.DeleteDeviceByID | services/protocol-gateway/internal/service/config_subscriber.go:794-812 | All three registries forget the id |
| ConfigSync.ConfigSubscriber.HandleDeviceChange | services/protocol-gateway/internal/service/config_subscriber.go:281-301 | One device message, with a fresh object that carries what the message says |
| ConfigSync.ConfigSubscriber.HandleBulkDevices | services/protocol-gateway/internal/service/config_subscriber.go:303-337 | The two loops, in any order of the stale devices, are the bulk specification; agreement exactly as stated there |
| ConfigSync.ConfigSubscriber.HandleTagChange | services/protocol-gateway/internal/service/config_subscriber.go:339-422 | Works on a clone with the changed tags: no device in use is touched, and agreement depends on the protocol alone |
| ConfigSync.ProtocolNames | services/protocol-gateway/internal/service/config_subscriber.go:591-607 | The protocol names of messages become the gateway's own |
| ConfigSync.SettingsAreTaken | services/protocol-gateway/internal/service/config_subscriber.go:485-500 | Everything else is taken as it is |
| Devices.Device.UpsertTag | services/protocol-gateway/internal/service/config_subscriber.go:370-395 | In place: the first tag with the id is replaced, or the tag appended |
| Devices.Device.DeleteTag | services/protocol-gateway/internal/service/config_subscriber.go:396-404 | In place, over the slice that is being read: every tag with the id goes |
| Devices.Device.Clone | services/protocol-gateway/internal/service/config_subscriber.go:623-628 | The same settings and tags in an array of its own |
| Devices.Device.BuildTagIndex | services/protocol-gateway/internal/service/command_handler.go:527-533 | The loop builds the index |
| Devices.IndexIsRight | services/protocol-gateway/internal/service/command_handler.go:527-533 | Every tag id leads to the last tag that has it, and nothing else is found |
| Devices.UpsertFinds | services/protocol-gateway/internal/service/config_subscriber.go:370-395 | The tag is there, no id is lost, unique ids stay unique |
| Devices.UpsertIs | services/protocol-gateway/internal/service/config_subscriber.go:370-395 | The tag takes the place of the first with its id or comes last, and all others stay where they are |
| Devices.WithoutIsExact | services/protocol-gateway/internal/service/config_subscriber.go:396-404 | Exactly the tags with the id go |
| Devices.WithoutParts | services/protocol-gateway/internal/service/config_subscriber.go:396-404 | What is left keeps its order |
| Devices.ChangeIs | services/protocol-gateway/internal/service/config_subscriber.go:366-404 | Creating and updating are the same, and an unknown action does nothing |
| Devices.ChangeIsIdempotent | services/protocol-gateway/internal/service/config_subscriber.go:366-404 | A tag message delivered twice changes nothing the second time |
| CircuitBreaking.MachineIsHistory | services/gateway-core/src/proxy/protocol-gateway.ts:35-86 | State, failure count and failure time are functions of the history; the breaker is closed exactly when the trailing run of failures is under five |
| CircuitBreaking.RejectedIff | services/gateway-core/src/proxy/protocol-gateway.ts:42-59 | Without any assumption on the clock: rejected exactly with five trailing failures, the latest under 30 s old, and no probe since |
| CircuitBreaking.RejectedIffRecentFailures | services/gateway-core/src/proxy/protocol-gateway.ts:42-59 | With a clock that does not run backwards the probe does not matter |
| CircuitBreaking.ReportAgrees | services/gateway-core/src/proxy/protocol-gateway.ts:89-95 | The read-only view is the state that the next gated request finds |
| CircuitBreaking.ClosedUnlessBlamed | services/gateway-core/src/proxy/protocol-gateway.ts:118-160 | After settled requests the breaker is closed exactly when fewer than the last five were the gateway's fault: no response, a status of 500 or more, or an unreadable body outside of 200 to 299 |
| CircuitBreaking.ClockSetBack | services/gateway-core/src/proxy/protocol-gateway.ts:46-49 | With a clock set back the machine lets through what the stateless rule rejects |
| CircuitBreaking.CircuitBreaker.CheckCircuitBreaker | services/gateway-core/src/proxy/protocol-gateway.ts:42-59 | Rejects exactly as the history says |
| CircuitBreaking.CircuitBreaker.RecordFailure | services/gateway-core/src/proxy/protocol-gateway.ts:69-86 | Open exactly when the trailing run is at least five |
| CircuitBreaking.CircuitBreaker.RecordSuccess | services/gateway-core/src/proxy/protocol-gateway.ts:61-67 | Closed |
| CircuitBreaking.CircuitBreaker.GetCircuitBreakerState | services/gateway-core/src/proxy/protocol-gateway.ts:89-95 | The reported state and failure count |
| CircuitBreaking.CircuitBreaker.Settle | services/gateway-core/src/proxy/protocol-gateway.ts:131-156 | An ok response, or one below 500 whose body can be read, is a success, anything else a failure |

## Left out

- ValueToBytes: which bit pattern Go gives a floating-point number, and which integer it makes of a float where the language leaves that open, are an argument, so what is said about such values does not depend on them.
- ParseValue: floating-point values are the bit patterns that were read, and scaling (applyScaling, reverseScaling) is not modelled.
- ReadAll: does not model retries, statistics, data quality and timestamps of points; the points carry the error itself. A panic ends the run; that the process ends with it is not modelled.
- OutOfBoundsIff: tag validation (services/protocol-gateway/internal/domain/tag.go:212-227), which some tags pass and others do not, is not modelled, and so neither is its limit of 7 for bit positions.
- LoadBoundIff: a caller that waits for its queued request counts as queued, not as at work.
- Safety: an unbuffered points channel (BufferSize 0) is modelled as always full, without the hand-over to a waiting receiver.
- Safety: whether a write succeeds is not modelled, since a failed write is logged and its batch released all the same.
- NeverStuckIff: does not say that a run ends, which also needs a fair scheduler; WorkIsFinite bounds how many steps a run can make.
- Release: a sync.Pool may also forget objects at any time, which the transition system models and the Pool class does not.
- CountersAreExact: does not model closing the pool, after which workers drain and queues are closed.
- AnsweredOnce: does not model the caller's wait for the result, which has no effect on shared state.
- TelemetryNeverQueues: the threshold is computed over real numbers, without rounding of float64.
- Reap: the two clock readings of one look at a session are one.
- GetClient: does not model subscription recovery, the browse cache, metrics and the direct reconnect of a client, which bypasses the backoff.
- RemoveClient: the branch for a binding without a session is not modelled; the invariant rules it out.
- GetNodeID: one indivisible lookup; lookups that overlap a refresh, a disconnect or each other are covered by LateLookupsAreTransparentIff for as long as nothing is evicted.
- RegisterDevice: the polling service is a registry here; poller goroutines, subscriptions and their restarts are not modelled.
- HandleTagChange: topics, JSON and the YAML cache are not modelled; the device id and the decoded tag are arguments.
- HandleBulkDevices: connection settings and most tag fields are copied without effect on the registries and are not modelled.
- HTTP, MQTT and SQL transport, configuration files, logging, metrics, certificates, authentication and the web UI: plumbing, or copying of fields.
- The WebSocket bridge, topic renaming, health checks, trust store and statistics: easier members, or claims that hold only weakly.
- gobreaker, gopcua, goburrow/modbus, gos7, paho and pgx are not part of this model.
