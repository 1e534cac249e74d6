# AETUS in Dafny

AETUS moves telemetry from ESP32 devices through protobuf into Postgres and serves it back. This
project models the parts of it whose correctness is not visible in any one function, and proves
what they promise for all inputs, all runs and all reachable states.

- **Wire encoding** (`Varint`, `WireFormat`, `Message`, `Encoder`, `Descriptor`). The nanopb
  encoder, from the split 32/32-bit varint loop to submessages written in two passes, against a
  parser written from the Protocol Buffers Encoding specification ("Base 128 Varints", "Signed
  Integers", "Length-Delimited Records"). A message is a tree of described fields; the stream is a
  bounded buffer that either counts or writes. The descriptor words and the cyclic field iterator
  are modelled on 32-bit words.
- **Ingest events** (`IngestEvent`, `FrameInput`, `EventEncoding`, `Normalize`). The firmware's three
  events with the concrete schema of `ingest.pb.h`: what a server decodes, how large an event gets,
  which events arrive unchanged, the validation that guards signal frames, and the server's check
  before a frame is stored.
- **Uploader** (`SamplePool`, `Uploader`, `ItemMemory`, `ItemEncoding`, `DrainQueue`). The queue,
  sequence counter, sample pool and the blocks of queued telemetry as a step system in which
  producers and the one uploader interleave freely; the bytes posted for an item; the drain loop and
  the enqueue functions as imperative code on the heap whose every change extends a run of that
  system from its start.
- **Telemetry ownership** (`Telemetry`, `QueueItem`, `TelemetryEvent`). The metric record with its
  inline and heap slots, over an explicit heap: adding, copying into a queue item, encoding, releasing.
- **Signal samples** (`Numbers`, `SignalCodec`, `Windows`, `Envelope`, `Series`). Two packers, a sequential
  and an indexed decoder, the anomaly service's capped windows and the query service's envelope.
- **Rate limiter** (`RateLimiter`), **webhook outbox** (`Outbox`), **device ids** (`DeviceIds`).

Inputs from outside (allocator answers, post results, clocks, send outcomes, generated tokens)
are parameters, so every claim holds whatever they are. `Wrappers` and `Seqs` hold small helpers.
`dafny verify dfyconfig.toml` checks everything.

Some results say that the code does less than one might expect:

- `QueueItem.DeniedCopyDamages`, `QueueItem.CopyHarmlessIff`: when an allocation is denied while a
  telemetry is copied, the clean-up also frees blobs that still belong to the caller. It is harmless
  exactly when there is no blob to copy.
- `QueueItem.InterruptCopyApartIff`, `QueueItem.SharesTable`: the enqueue from an interrupt copies the
  struct only. If the record has a table, copy and original both free it; a record of four plain
  metrics has one after a fifth add was denied its blob.
- `Series.AtOwnTimesIff`: when frames have different channels, values are paired with other frames'
  timestamps, except exactly if no frame lacking the key comes before one that carries it.
- `EventEncoding.EncodableIff`: one empty byte metric makes the whole telemetry event fail to encode.
- `EventEncoding.SentWhole`: an event arrives unchanged exactly when its strings and lists fit the
  protobuf struct; a device id of 32 to 63 bytes is accepted by the configuration and cut.
- `RateLimiter.BoundHoldsIff`, `RateLimiter.AnswersAlikeIff`: the limit of burst + rate * time holds
  of every run, and forgetting idle buckets goes unnoticed, exactly if the idle limits let a bucket
  refill; otherwise `RateLimiter.BoundFails` gives a run that serves twice the burst.
- `Descriptor.LoadedExactlyIf`, `Descriptor.SizeOffsetLost`: the assertions on wide field descriptors
  look at the size offset through a cast, so an offset of 300 passes them and loads as 44.

## Model

| member | source | states |
|---|---|---|
| `Varint.EncodedIsMinimal` | firmware/esp32-aetus/components/nanopb/pb_encode.c:573-622 | the specified form of every number is a minimal varint with that value |
| `Varint.MinimalFormUnique` | firmware/esp32-aetus/components/nanopb/pb_encode.c:573-622 | any minimal varint is the specified form of its value, so the form is unique |
| `Varint.EncodedIsShortest` | firmware/esp32-aetus/components/nanopb/pb_encode.c:573-622 | no varint of the same value is shorter |
| `Varint.EncodedLength` | firmware/esp32-aetus/components/nanopb/pb_encode.c:573-605 | at most 5 bytes below 2^32 and 10 below 2^64 |
| `Varint.GroupAt` | firmware/esp32-aetus/components/nanopb/pb_encode.c:573-605 | byte k holds the seven bits of weight 128^k, with the top bit exactly if it is not the last |
| `Varint.DecodeEncoded` | firmware/esp32-aetus/components/nanopb/pb_encode.c:573-622 | a varint reader gets every 64-bit value and its length back, whatever bytes follow |
| `Varint.LowGroups` | firmware/esp32-aetus/components/nanopb/pb_encode.c:577-586 | the loop over the low word leaves a prefix that, with the pending rest, is the form of the whole value |
| `Varint.HighGroups` | firmware/esp32-aetus/components/nanopb/pb_encode.c:588-600 | the loop over the high word does the same and stays inside the 10-byte buffer |
| `Varint.EncodeSplit` | firmware/esp32-aetus/components/nanopb/pb_encode.c:573-605 | low and high words together give the unique minimal form in 1 to 10 bytes |
| `Varint.EncodeVarint` | firmware/esp32-aetus/components/nanopb/pb_encode.c:607-622 | the one-byte shortcut and the split loop write the same form |
| `Varint.ZigzagRoundTrip` | firmware/esp32-aetus/components/nanopb/pb_encode.c:625-635 | the shift and complement compute 2x or -2x-1 and unzigzag to x, for every int64 |
| `Varint.SvarintRoundTrip` | firmware/esp32-aetus/components/nanopb/pb_encode.c:625-635 | decoding a signed varint returns the original int64 |
| `WireFormat.ParseWritten` | firmware/esp32-aetus/components/nanopb/pb_encode.c:637-722 | parsing the bytes of any list of records (key, then varint, fixed or length-delimited payload) returns the records |
| `WireFormat.RecordIs` | firmware/esp32-aetus/components/nanopb/pb_encode.c:675-722 | a record is its key, field number times eight plus wire type (0 varint, 1 eight bytes, 2 length-delimited, 5 four bytes), then its payload |
| `WireFormat.RecordExamples` | firmware/esp32-aetus/components/nanopb/pb_encode.c:675-722 | the specification's examples: 150 in field 1 and "testing" in field 2 |
| `WireFormat.LittleEndianAt` | firmware/esp32-aetus/components/nanopb/pb_encode.c:637-673 | byte k of a fixed-width value is its digit of weight 256^k |
| `WireFormat.WrittenConcat` | firmware/esp32-aetus/components/nanopb/pb_encode.c:675-722 | record lists serialise piecewise |
| `Message.WireRoundTrip` | firmware/esp32-aetus/components/nanopb/pb_encode.c:418-534 | the output for any representable message whose callbacks write whole fields parses into its records |
| `Message.ScalarWire` | firmware/esp32-aetus/components/nanopb/pb_encode.c:776-854 | booleans travel as 0 and 1, integers in two's complement, signed ones zigzag, fixed ones as they are |
| `Message.SingularPresence` | firmware/esp32-aetus/components/nanopb/pb_encode.c:244-360 | a singular scalar is written exactly if it is not zero, text if it does not begin with NUL, bytes if there are some |
| `Message.ChosenPresence` | firmware/esp32-aetus/components/nanopb/pb_encode.c:418-472 | a required field is always written, an optional one with its flag, a oneof arm when it is the chosen one |
| `Message.ValueIs` | firmware/esp32-aetus/components/nanopb/pb_encode.c:199-237 | what bytes, text and arrays write, and exactly when they are an error |
| `Message.DefaultIsEmpty` | firmware/esp32-aetus/components/nanopb/pb_encode.c:244-360 | what the default test skips, to any depth, would have written nothing |
| `Message.RoundTrip` | firmware/esp32-aetus/components/nanopb/pb_encode.c:244-534 | for messages of any depth, a proto3 parser with the schema gives back the tree: zero singular fields gone, the chosen oneof arm present, packed arrays unpacked |
| `Encoder.OStream.Sizing` | firmware/esp32-aetus/components/nanopb/pb_encode.c:557-566 | a stream without callback starts at zero and has no limit |
| `Encoder.OStream.ToBuffer` | firmware/esp32-aetus/components/nanopb/pb_encode.c:63-82 | a buffer stream starts empty with the buffer's size as limit |
| `Encoder.OStream.Write` | firmware/esp32-aetus/components/nanopb/pb_encode.c:53-105 | succeeds exactly when the data fits; then appends it at the cursor, else changes nothing |
| `Encoder.Then` | firmware/esp32-aetus/components/nanopb/pb_encode.c:418-472 | two encoding steps in a row encode the concatenation, fail exactly if it does not fit, and stay in bounds |
| `Encoder.WriteVarint` | firmware/esp32-aetus/components/nanopb/pb_encode.c:607-622 | as a stream step: the minimal form, or "stream full" exactly if it does not fit |
| `Encoder.WriteKey` | firmware/esp32-aetus/components/nanopb/pb_encode.c:675-714 | as a stream step: field number and wire type |
| `Encoder.WriteString` | firmware/esp32-aetus/components/nanopb/pb_encode.c:716-722 | as a stream step: length prefix and contents |
| `Encoder.WriteScalar` | firmware/esp32-aetus/components/nanopb/pb_encode.c:776-854 | as a stream step: the payload of every scalar type |
| `Encoder.WriteScalars` | firmware/esp32-aetus/components/nanopb/pb_encode.c:180-195 | the element loop of a packed array writes exactly the packed bytes |
| `Encoder.StringLength` | firmware/esp32-aetus/components/nanopb/pb_encode.c:877-928 | the scan finds the first NUL, and fails on an unterminated array |
| `Encoder.PackedSize` | firmware/esp32-aetus/components/nanopb/pb_encode.c:151-172 | multiplication for fixed widths and a counting pass otherwise both give the exact packed size |
| `Encoder.WritePacked` | firmware/esp32-aetus/components/nanopb/pb_encode.c:138-196 | key, exact size and elements of a packed array |
| `Encoder.WriteValue` | firmware/esp32-aetus/components/nanopb/pb_encode.c:362-405 | the value of a basic field of every type, including nested messages |
| `Encoder.WriteItem` | firmware/esp32-aetus/components/nanopb/pb_encode.c:362-405 | key and value of a basic field |
| `Encoder.WriteItems` | firmware/esp32-aetus/components/nanopb/pb_encode.c:199-237 | the unpacked array loop, and a callback that writes its field any number of times |
| `Encoder.WriteRaw` | firmware/esp32-aetus/components/nanopb/pb_encode.c:407-416 | a callback that writes arbitrary bytes, and succeeds or not, is counted and written alike |
| `Encoder.EncodeField` | firmware/esp32-aetus/components/nanopb/pb_encode.c:407-472 | a field writes its records exactly when present: oneof choice, optional flag, proto3 default; a callback may write anything |
| `Encoder.EncodeFields` | firmware/esp32-aetus/components/nanopb/pb_encode.c:512-534 | all fields in descriptor order |
| `Encoder.WriteSubmessage` | firmware/esp32-aetus/components/nanopb/pb_encode.c:724-772 | the two-pass scheme writes exact length and contents at any depth, and "submsg size changed" never happens |
| `Encoder.WriteCounted` | firmware/esp32-aetus/components/nanopb/pb_encode.c:747-771 | the second pass writes as many bytes as the first counted |
| `Encoder.EncodedSize` | firmware/esp32-aetus/components/nanopb/pb_encode.c:557-566 | the counting pass succeeds exactly when the message has an encoding and reports its exact length |
| `Encoder.EncodeToBuffer` | firmware/esp32-aetus/components/nanopb/pb_encode.c:512-566 | succeeds exactly when the counted size fits; the buffer then starts with the encoding and is otherwise untouched; "size changed" is impossible |
| `Descriptor.FirstWord` | firmware/esp32-aetus/components/nanopb/pb.h:733-799 | in all four formats the first word alone yields width, type and low tag bits |
| `Descriptor.LoadPacked` | firmware/esp32-aetus/components/nanopb/pb_common.c:8-72 | under the PB_FITS assertions as written, what loading yields from what PB_FIELDINFO packed, in all four formats and anywhere in a table; it is the field itself exactly if the size offset is below 128 (wide formats) and the array size 1 (narrowest) |
| `Descriptor.LoadedExactlyIf` | firmware/esp32-aetus/components/nanopb/pb.h:786-799 | of the fields the assertions admit, exactly which survive packing |
| `Descriptor.SizeOffsetLost` | firmware/esp32-aetus/components/nanopb/pb.h:769-798 | a size offset of 300 passes the four-word assertion and loads as 44 |
| `Descriptor.NextEntry` | firmware/esp32-aetus/components/nanopb/pb_common.c:142-152 | the length bits and type of a word lead to the next field's word, submessage and required index |
| `Descriptor.LoadAt` | firmware/esp32-aetus/components/nanopb/pb_common.c:17-71 | loading at a field's word index gives that field's packed values |
| `Descriptor.IndicesCount` | firmware/esp32-aetus/components/nanopb/pb_common.c:142-152 | submessage and required index are the numbers of earlier fields of types 8 and 9 and of required ones |
| `Descriptor.PlaceIs` | firmware/esp32-aetus/components/nanopb/pb_common.c:74-82 | with a message the data are at the data offset, without one nowhere |
| `Descriptor.PlaceOfSize` | firmware/esp32-aetus/components/nanopb/pb_common.c:84-87 | a size offset leads back from the data to the count or flag |
| `Descriptor.PlaceOfCount` | firmware/esp32-aetus/components/nanopb/pb_common.c:88-98 | without one a repeated field, static or pointer, counts in the iterator |
| `Descriptor.PlaceReads` | firmware/esp32-aetus/components/nanopb/pb_common.c:100-117 | pointer fields are read through, and a submessage type has its descriptor at the submessage index |
| `Descriptor.MissedAll` | firmware/esp32-aetus/components/nanopb/pb_common.c:195-244 | a full round without a match means the tag is absent |
| `Descriptor.MissedBelow` | firmware/esp32-aetus/components/nanopb/pb_common.c:210-216 | searching a smaller tag from the first field up to the start field is enough |
| `Descriptor.AboveLargest` | firmware/esp32-aetus/components/nanopb/pb_common.c:201-204 | a tag above the largest is absent |
| `Descriptor.BeginIteration` | firmware/esp32-aetus/components/nanopb/pb_common.c:156-164 | false for a message without fields, else on the first field with its values loaded |
| `Descriptor.FieldIter.LoadValues` | firmware/esp32-aetus/components/nanopb/pb_common.c:8-120 | false past the last field; else the values of the field the indices point to, where its data and its count are, and its submessage descriptor |
| `Descriptor.FieldIter.Advance` | firmware/esp32-aetus/components/nanopb/pb_common.c:122-154 | all four positions move to the next field, or back to the first |
| `Descriptor.FieldIter.Next` | firmware/esp32-aetus/components/nanopb/pb_common.c:188-193 | next field loaded; false exactly on wrap-around |
| `Descriptor.FieldIter.Walk` | firmware/esp32-aetus/components/nanopb/pb_encode.c:512-534 | the do-while walk visits every field once, in order |
| `Descriptor.FieldIter.Search` | firmware/esp32-aetus/components/nanopb/pb_common.c:218-238 | the search loop terminates on the tag, or back at its start having missed every field in between |
| `Descriptor.FieldIter.Find` | firmware/esp32-aetus/components/nanopb/pb_common.c:195-244 | from any field: true exactly if the tag exists, then positioned on it, otherwise back on the starting field |
| `IngestEvent.CopyStringText` | firmware/esp32-aetus/components/aetus/aetus.c:133-146 | a copied string is the source up to its NUL or the array's end, always terminated |
| `IngestEvent.HeaderTags` | services/ingest-api/proto/ingest.proto:27-35 | the header under its field numbers 1 to 8 |
| `IngestEvent.ChannelTags` | services/ingest-api/proto/ingest.proto:106-111 | a channel under its field numbers 1 to 4, scale and offset only when present |
| `IngestEvent.EventConforms` | firmware/esp32-aetus/components/aetus/ingest.pb.h:225-299 | every event the firmware builds agrees with the schema |
| `IngestEvent.MetricDecodes` | firmware/esp32-aetus/components/aetus/aetus.c:892-928 | reading a metric's visible tree gives key, unit and the value of the right type, also when it is zero |
| `IngestEvent.FrameDecodes` | firmware/esp32-aetus/components/aetus/aetus.c:976-1022 | reading a frame's visible tree gives all numbers, channels and samples |
| `IngestEvent.EventDecodes` | firmware/esp32-aetus/components/aetus/aetus.c:882-1050 | reading an event's visible tree gives schema version 1, the type of the body and the event as sent, for all three kinds |
| `IngestEvent.EventRoundTrip` | firmware/esp32-aetus/components/aetus/aetus.c:882-1050 | parsing an event's bytes and reading the result gives version, type and the event as sent |
| `EventEncoding.SignalEventSize` | firmware/esp32-aetus/components/aetus/aetus.c:74-77 | every signal event encodes, in at most 349 bytes more than its samples, so 512 suffice |
| `EventEncoding.StatusEventSize` | firmware/esp32-aetus/components/aetus/aetus.c:1024-1050 | every status event encodes, in at most 154 bytes |
| `EventEncoding.EncodableIff` | firmware/esp32-aetus/components/aetus/aetus.c:357-379 | an event has an encoding exactly if none of the metrics sent is an empty byte blob; then its size is bounded |
| `EventEncoding.EventRepresentable` | firmware/esp32-aetus/components/aetus/aetus.c:882-1050 | every event that fits the address space meets the encoder's requirements |
| `EventEncoding.Delivered` | firmware/esp32-aetus/components/aetus/aetus.c:882-1050 | whenever an event can be encoded, the server decodes version, type and the event the device sent |
| `EventEncoding.SentWhole` | firmware/esp32-aetus/components/aetus/aetus.c:882-1050 | an event is sent unchanged exactly if its strings hold no NUL and fit, and its lists fit |
| `FrameInput.ExpectedSize` | firmware/esp32-aetus/components/aetus/aetus.c:469-487 | the overflow guards reject exactly the products above SIZE_MAX; otherwise the size is the true one |
| `FrameInput.Validate` | firmware/esp32-aetus/components/aetus/aetus.c:489-509 | accepts exactly the well-formed frames within the sample limit |
| `FrameInput.AcceptableIff` | firmware/esp32-aetus/components/aetus/aetus.c:489-509 | in numbers: which frames are well-formed, with the sample width of each encoding |
| `EventEncoding.EncodeSignalFrame` | firmware/esp32-aetus/components/aetus/aetus.c:976-1022 | succeeds exactly if the frame validates and its event fits, always so for a validated frame and a buffer that satisfies the static assertion; then the server reads the frame: encodings 0 to 3 as float32, int16, uint16, int32, layouts 0 and 1 as interleaved and planar, cut strings, and all else as it is |
| `EventEncoding.FrameArrives` | firmware/esp32-aetus/components/aetus/aetus.c:976-1022 | what is sent of an accepted frame is that frame, with those enumeration values |
| `Normalize.NormalizeFrame` | services/ingest-api/src/aetus_ingest/normalize.py:49-92 | a decoded frame is stored exactly if names, numbers and the sample length are right, and then as it is |
| `Normalize.AcceptedIsStored` | services/ingest-api/src/aetus_ingest/normalize.py:49-92 | whatever arrives of a frame the firmware accepted is stored: the three width tables and both size computations agree |
| `Normalize.StoredIsDecodable` | services/query-api/src/aetus_query/signal_decode.py:53-65 | a stored frame passes the size and name checks of both decoding services |
| `EventEncoding.NeverRefused` | firmware/esp32-aetus/components/aetus/aetus.c:74-77 | with such a buffer no header makes the encode step fail on a validated frame |
| `SamplePool.Pool.Alloc` | firmware/esp32-aetus/components/aetus/aetus_signal_sample_pool.c:53-85 | succeeds exactly for sizes 1 to the maximum with memory granted; counters and peaks change accordingly |
| `SamplePool.Pool.Release` | firmware/esp32-aetus/components/aetus/aetus_signal_sample_pool.c:31-42 | counters change as one release, with the saturating branches |
| `SamplePool.ReleaseIs` | firmware/esp32-aetus/components/aetus/aetus_signal_sample_pool.c:31-42 | blocks and bytes go down but never below zero, and nothing else but the number of releases changes |
| `SamplePool.AllocIs` | firmware/esp32-aetus/components/aetus/aetus_signal_sample_pool.c:53-85 | one more block of that size in 32-bit counters; peaks follow |
| `SamplePool.Pool.Note` | firmware/esp32-aetus/components/aetus/aetus_signal_sample_pool.c:104-142 | exactly the named reason counter moves, modulo 2^32 |
| `Uploader.OrderStep` | firmware/esp32-aetus/components/aetus/aetus.c:1137-1185 | every step keeps posts, item in hand and queue in enqueue order, and the numbering |
| `Uploader.PoolStep` | firmware/esp32-aetus/components/aetus/aetus.c:174-195 | every step keeps the pool counters equal to the live blocks, and every item in the system vetted |
| `Uploader.FreeAccounted` | firmware/esp32-aetus/components/aetus/aetus_signal_sample_pool.c:31-42 | when the uploader frees a block the saturating branches are not taken |
| `Uploader.FreeUnsentAccounted` | firmware/esp32-aetus/components/aetus/aetus_signal_sample_pool.c:31-42 | nor when a producer frees a block it could not send |
| `Uploader.Invariant` | firmware/esp32-aetus/components/aetus/aetus.c:1137-1185 | order, pool, telemetry and payload invariants hold after every run of interleaved steps |
| `Uploader.PostsInOrder` | firmware/esp32-aetus/components/aetus/aetus.c:1137-1185 | over every run successful posts are numbered 0, 1, 2, ..., are a subsequence of the enqueue order, no item is posted twice, and each payload was made of its item under its number |
| `Uploader.ItemsConserved` | firmware/esp32-aetus/components/aetus/aetus.c:1148-1179 | over every run each enqueued item is posted, in hand, queued, or lost to an encoding failure or a full queue; a failed post loses nothing while there is room |
| `Uploader.AccountedConserves` | firmware/esp32-aetus/components/aetus/aetus_signal_sample_pool.c:18-142 | the invariant gives the conservation laws, with wrapped counters |
| `Uploader.PoolConserved` | firmware/esp32-aetus/components/aetus/aetus.c:1735-1768 | over every run: allocated blocks and bytes are those live, allocations minus releases is their number, at rest releases are the sum of the four reasons |
| `Uploader.CountersCount` | firmware/esp32-aetus/components/aetus/aetus_signal_sample_pool.c:18-142 | over every run each counter is the number of its occasions modulo 2^32, but for a frame whose reason is still to be counted |
| `Uploader.PeaksAreHighest` | firmware/esp32-aetus/components/aetus/aetus_signal_sample_pool.c:53-85 | over every run the peaks are the most blocks and bytes ever live at once |
| `Uploader.HeldStep` | firmware/esp32-aetus/components/aetus/aetus_queue_item.c:14-55 | every step keeps exactly one holder for each live telemetry block |
| `Uploader.TelemetryConserved` | firmware/esp32-aetus/components/aetus/aetus.c:174-195 | over every run the live telemetry blocks are those of queued items, the item in hand and the producers, each once; a release frees only live blocks; once nothing is held none is left |
| `Uploader.QueuedFramesEncode` | firmware/esp32-aetus/components/aetus/aetus.c:1151-1157 | if no vetted status or frame can be refused, no run loses one to the encode step and its counter stays zero |
| `ItemEncoding.EncodeItem` | firmware/esp32-aetus/components/aetus/aetus.c:1052-1067 | for all three kinds: the payload is the encoding of the item's event exactly if a frame still validates and the event has an encoding that fits; the server then reads the given number, the item's time, the header's device id, boot id, firmware version and uptime, and the item's contents |
| `ItemEncoding.EncodeStatus` | firmware/esp32-aetus/components/aetus/aetus.c:1024-1050 | a status encodes exactly if its event fits the buffer |
| `ItemEncoding.EncodeRecord` | firmware/esp32-aetus/components/aetus/aetus.c:930-974 | the struct taken from the queue encodes, from its blocks in memory, to the event of what the item says |
| `ItemEncoding.DrainNeverRefuses` | firmware/esp32-aetus/components/aetus/aetus.c:1148-1157 | over every run of a build that satisfies the static assertion, drain never takes the encode-failure branch for a queued status or signal frame |
| `ItemEncoding.TelemetryRefused` | firmware/esp32-aetus/components/aetus/aetus.c:357-379 | telemetry with an empty byte value is refused under every header; without one it fits when its values leave 2521 bytes of the buffer |
| `ItemEncoding.CarriedReads` | firmware/esp32-aetus/components/aetus/aetus.c:882-1050 | whatever a build may post for an item under a number reads back under some valid header as that number, the item's time, the header's other fields and the item's contents |
| `ItemEncoding.PostsReadBack` | firmware/esp32-aetus/components/aetus/aetus.c:882-890 | over every run the k-th successful post's bytes decode to sequence number k (modulo 2^64), the item's time and contents, under the header it was encoded with |
| `ItemEncoding.ItemArrives` | firmware/esp32-aetus/components/aetus/aetus.c:413-425 | what is sent of an item is its entries, its frame, or its status with the application's states 0 to 2 as online, degraded, offline |
| `ItemMemory.StoredStep` | firmware/esp32-aetus/components/aetus/aetus.c:1137-1185 | every step keeps each queued or held telemetry item a record in memory that owns its blocks and says what was enqueued |
| `ItemMemory.Survives` | firmware/esp32-aetus/components/aetus/aetus.c:174-195 | the items depend on their own blocks only: whatever happens to others, they stay as they are |
| `DrainQueue.Context.constructor` | firmware/esp32-aetus/components/aetus/aetus.c:1568-1611 | the context begins a run of the firmware's step system at its start, with an empty run |
| `DrainQueue.Context.Reachable` | firmware/esp32-aetus/components/aetus/aetus.c:1137-1185 | every invariant of the step system holds of a context at any time |
| `DrainQueue.Context.AllocateBlock` | firmware/esp32-aetus/components/aetus/aetus.c:1739-1747 | a frame is validated, then its block allocated or the failure counted, as steps of the system |
| `DrainQueue.Context.SendHeld` | firmware/esp32-aetus/components/aetus/aetus.c:1756-1758 | a send succeeds exactly if a slot is free; a failed one is counted for signal frames |
| `DrainQueue.Context.FreeHeld` | firmware/esp32-aetus/components/aetus/aetus.c:1729-1765 | a producer frees an unsent item: exactly its telemetry blocks leave memory, or its sample block the pool; every other block stays |
| `DrainQueue.Context.EnqueueSignalFrame` | firmware/esp32-aetus/components/aetus/aetus.c:1735-1768 | invalid, out of memory, queued at the end or timed out, each exactly when; unless queued everything is given back |
| `DrainQueue.Context.EnqueueStatus` | firmware/esp32-aetus/components/aetus/aetus.c:1770-1785 | a status is queued exactly if a slot is free |
| `DrainQueue.Context.CopyRecord` | firmware/esp32-aetus/components/aetus/aetus.c:1724-1725 | exactly if no allocation is denied the producer holds an item that says what the record says, in new blocks; the record and all other blocks are as before |
| `DrainQueue.Context.EnqueueTelemetry` | firmware/esp32-aetus/components/aetus/aetus.c:1719-1733 | out of memory, queued or timed out, each exactly when; queued: the item says what the record says in blocks of its own; timed out: memory is as before; out of memory: the queue is |
| `DrainQueue.Context.EnqueueInInterrupt` | firmware/esp32-aetus/components/aetus/aetus.c:1787-1814 | a record without a table is rejected, queued as it is, or timed out, each exactly when; memory does not change |
| `DrainQueue.Context.Act` | firmware/esp32-aetus/components/aetus/aetus.c:1719-1785 | any step of another task (allocate a frame, fill and copy a record, send, free, enqueue a status) extends the run, leaves the uploader's item and posts alone, and leaks no block unless a copy was denied |
| `DrainQueue.Context.Dispose` | firmware/esp32-aetus/components/aetus/aetus.c:1153-1177 | counting the reason, freeing a sample block and releasing a record extend the run; exactly the item's telemetry blocks leave memory |
| `DrainQueue.Context.GiveBack` | firmware/esp32-aetus/components/aetus/aetus.c:174-195 | releasing the record of an item frees exactly its blocks and leaves every other item in memory |
| `DrainQueue.Context.Requeue` | firmware/esp32-aetus/components/aetus/aetus.c:1170-1178 | a failed item goes to the front, or is dropped, counted and freed if the queue is full |
| `DrainQueue.Context.Upload` | firmware/esp32-aetus/components/aetus/aetus.c:1149-1178 | one pass: the payload is read by the server as the item, under the context's sequence number and the round's header; the item is dropped if it has none, posted with it if the post succeeds, else put back in front; more rounds exactly in the first two cases; no block leaks |
| `DrainQueue.Context.DrainQueue` | firmware/esp32-aetus/components/aetus/aetus.c:1137-1185 | with any steps of other tasks while an item is in hand, the loop extends the run and only appends posts; it can be called again; an empty queue ends draining; if every post succeeds and nobody adds, the queue is emptied |
| `DrainQueue.Context.PostLaws` | firmware/esp32-aetus/components/aetus/aetus.c:1137-1185 | of every context, whatever it has been through: posts in order under 0, 1, 2, ..., each read back by the server as its item; every item accounted for; no status or frame refused |
| `DrainQueue.Context.CountLaws` | firmware/esp32-aetus/components/aetus/aetus.c:1137-1185 | and the pool's blocks and bytes and the heap's blocks are exactly those of the items, its counters and peaks those of the run |
| `DrainQueue.UploaderTask` | firmware/esp32-aetus/components/aetus/aetus.c:1193-1207 | from start-up through any cycles of enqueueing and draining all those laws hold, and if no copy was denied the live telemetry blocks are exactly those of the items queued or held |
| `Telemetry.Heap.FreeBlobs` | firmware/esp32-aetus/components/aetus/aetus_queue_item.c:22-33 | the free loop frees every blob of the slots, each once |
| `Telemetry.Frame` | firmware/esp32-aetus/components/aetus/aetus.c:1315-1364 | a record depends on its own blocks only |
| `Telemetry.AppendOwned` | firmware/esp32-aetus/components/aetus/aetus.c:1315-1364 | writing the next slot, inline or in the table, appends one entry and adds one owned block at most |
| `Telemetry.Telemetry.EnsureRoom` | firmware/esp32-aetus/components/aetus/aetus.c:1334-1352 | the table is allocated on first need, never in an interrupt; contents do not change |
| `Telemetry.Telemetry.SetBlob` | firmware/esp32-aetus/components/aetus/aetus.c:1419-1472 | the last metric gets its copied bytes, or is taken back when memory is denied |
| `Telemetry.Telemetry.Add` | firmware/esp32-aetus/components/aetus/aetus.c:1366-1472 | appends exactly one entry or nothing, with the exact conditions, in numbers, of success and of an invalid argument; other owners' blocks untouched, nothing leaked |
| `Telemetry.Telemetry.AddAll` | firmware/esp32-aetus/components/aetus/aetus.c:1366-1472 | after any run of adds with any denials the record holds exactly the successful ones, in order |
| `QueueItem.Release` | firmware/esp32-aetus/components/aetus/aetus_queue_item.c:14-55 | frees exactly the record's blocks, each once, and nulls the inline pointers to them |
| `QueueItem.ForgottenIs` | firmware/esp32-aetus/components/aetus/aetus_queue_item.c:22-33 | a released slot has no pointer and size zero, and otherwise stays |
| `QueueItem.Deinit` | firmware/esp32-aetus/components/aetus/aetus.c:1219-1245 | leaves an empty record that owns nothing, having freed exactly its blocks |
| `QueueItem.CopyBlobs` | firmware/esp32-aetus/components/aetus/aetus_queue_item.c:83-112 | copies blobs up to the first denied allocation; later slots still hold the source's pointers |
| `QueueItem.CopySlot` | firmware/esp32-aetus/components/aetus/aetus_queue_item.c:96-111 | one blob copied and redirected, or nothing |
| `QueueItem.CopyComplete` | firmware/esp32-aetus/components/aetus/aetus_queue_item.c:57-119 | a finished copy says the same and owns only new blocks |
| `QueueItem.CopyAbandoned` | firmware/esp32-aetus/components/aetus/aetus_queue_item.c:114-117 | releasing an unfinished copy also frees the source's blobs in the remaining slots, and nothing else of the source |
| `QueueItem.Copy` | firmware/esp32-aetus/components/aetus/aetus_queue_item.c:57-119 | succeeds exactly if nothing needed is denied; then equal contents, disjoint blocks, nothing leaked; on failure the heap is exactly as the code leaves it |
| `QueueItem.EitherOrder` | firmware/esp32-aetus/components/aetus/aetus_queue_item.c:14-55 | copy and original can be released in either order: the other stays intact and each block is freed once |
| `QueueItem.DeniedCopyDamages` | firmware/esp32-aetus/components/aetus/aetus_queue_item.c:103-117 | a denied blob always leaves the source with a freed blob |
| `QueueItem.CopyHarmlessIff` | firmware/esp32-aetus/components/aetus/aetus_queue_item.c:103-117 | no denial can harm the source exactly if it has no blob to copy |
| `QueueItem.CopyInInterrupt` | firmware/esp32-aetus/components/aetus/aetus.c:1790-1812 | accepts exactly records with at most four metrics and no string or bytes among them, and queues the struct itself |
| `QueueItem.InterruptCopyApartIff` | firmware/esp32-aetus/components/aetus/aetus.c:1790-1812 | an accepted record and its copy share no block, and releasing the copy leaves the record intact, exactly if the record has no table |
| `QueueItem.SharesTable` | firmware/esp32-aetus/components/aetus/aetus.c:1334-1352 | a fifth metric whose blob is denied leaves an accepted record with a table |
| `TelemetryEvent.FillMetrics` | firmware/esp32-aetus/components/aetus/aetus.c:930-964 | each metric is taken from its inline or heap slot: what is filled in is what the record says, in order |
| `TelemetryEvent.BlobLengthIs` | firmware/esp32-aetus/components/aetus/aetus.c:930-974 | only texts and byte values count towards the size, by their length |
| `TelemetryEvent.EncodeTelemetry` | firmware/esp32-aetus/components/aetus/aetus.c:930-974 | succeeds exactly if the record's event has an encoding that fits, and writes it |
| `TelemetryEvent.EntriesArrive` | firmware/esp32-aetus/components/aetus/aetus.c:892-974 | whatever a record says, if it can be encoded the server decodes it entry by entry, in order: key cut to 19 bytes, unit to 7, the same integer, double, flag or bytes, and a text up to its NUL |
| `TelemetryEvent.EntriesWholeIff` | firmware/esp32-aetus/components/aetus/aetus.c:892-928 | what arrives is what was added exactly if keys and units fit and no text holds a NUL |
| `TelemetryEvent.AddAndEncode` | firmware/esp32-aetus/components/aetus/aetus.c:1366-1472 | fill an empty record with any calls and any denials and encode it: the server decodes exactly the successful adds, in order, each with its key, unit and value |
| `SignalCodec.ValueRoundTrip` | services/anomaly/src/repository.rs:908-916 | every value of the encoding's range, float32 patterns included, reads back from its little-endian bytes |
| `SignalCodec.ByteAt` | clients/rust-ingest/src/lib.rs:651-687 | bytes are two's complement, low byte first, two or four of them by encoding |
| `SignalCodec.InRangeIff` | clients/python-ingest/src/aetus_ingest_client/client.py:239-240 | the range of an encoding is exactly what survives packing |
| `Numbers.FloatOrdered` | services/anomaly/src/repository.rs:908-916 | float32 patterns without sign are ordered like the numbers they stand for, subnormals and infinity included, so no two stand for the same |
| `Numbers.FloatOne` | services/anomaly/src/repository.rs:908-916 | the pattern 0x3F800000 is one |
| `Numbers.FloatDoubles` | services/anomaly/src/repository.rs:908-916 | the next exponent doubles the number |
| `Numbers.FloatNormal` | services/anomaly/src/repository.rs:908-916 | within an exponent the numbers are evenly spaced from one power of two to the next |
| `Numbers.FloatSubnormal` | services/anomaly/src/repository.rs:908-916 | below the smallest power of two they count up from zero in the same steps |
| `Numbers.FloatSign` | services/anomaly/src/repository.rs:908-916 | the sign bit negates; exactly the pattern of infinity is infinite and exactly those above it are NaN |
| `Numbers.LessIs` | services/query-api/src/aetus_query/repository.py:604-611 | numbers are strictly ordered between the two infinities, and NaN is not comparable |
| `SignalCodec.EncodedAt` | services/anomaly/src/repository.rs:882-887 | value k's bytes are at k times the width |
| `SignalCodec.OrderedAt` | services/anomaly/src/repository.rs:882-886 | both layouts put every sample where the index arithmetic looks for it |
| `SignalCodec.PackRust` | clients/rust-ingest/src/lib.rs:651-736 | fails exactly on non-rectangular input; else the bytes of the values in layout order, with the row count cast to 32 bits |
| `SignalCodec.PackPython` | clients/python-ingest/src/aetus_ingest_client/client.py:209-240 | fails exactly on non-rectangular input or a value out of range; else the same bytes as the Rust packer |
| `SignalCodec.OrderedInRange` | clients/python-ingest/src/aetus_ingest_client/client.py:239-240 | the range check on ordered values passes exactly if every sample fits |
| `SignalCodec.DecodeSequential` | services/query-api/src/aetus_query/signal_decode.py:45-81 | fails exactly on the listed errors; else every key's list is what the values in wire order contribute to it, also with repeated keys |
| `SignalCodec.DecodersAgree` | services/query-api/src/aetus_query/signal_decode.py:67-81 | with distinct keys the sequential decoder's list for a channel equals the indexed decoder's values |
| `SignalCodec.CollectedCount` | services/query-api/src/aetus_query/signal_decode.py:67-81 | a key's list holds one value per sample for every channel carrying the key |
| `SignalCodec.RecoversChannelsIff` | services/query-api/src/aetus_query/signal_decode.py:67-81 | the sequential decoder recovers all channels exactly if keys are distinct |
| `SignalCodec.IndexedRoundTrip` | services/anomaly/src/repository.rs:866-894 | packed samples have the size the decoders demand and the indexed decoder reads back each sample, scaled then offset |
| `SignalCodec.SequentialRoundTrip` | services/query-api/src/aetus_query/signal_decode.py:45-81 | packing then decoding sequentially gives every scaled column |
| `SignalCodec.PackedReads` | services/query-api/src/aetus_query/signal_decode.py:112-117 | packed samples are read, by either decoder, as sample times scale plus offset (1 and 0 when absent); of float32 the pattern's number, NaN stays, an infinity takes the scale's sign and is NaN times zero |
| `Windows.PushCaps` | services/anomaly/src/repository.rs:878-894 | the capped push follows the append to the uncapped window |
| `Windows.OpenWindows` | services/anomaly/src/repository.rs:839-858 | one window per selected channel in order of first appearance, new ones rightly empty |
| `Windows.AppendSample` | services/anomaly/src/repository.rs:866-895 | one in-range sample keeps every window the cap of its key's stream |
| `Windows.AppendFrame` | services/anomaly/src/repository.rs:815-898 | fails exactly on malformed frames; otherwise all windows are again the caps of their streams |
| `Windows.BuildWindows` | services/anomaly/src/repository.rs:434-455 | fails exactly if a frame with samples and channels has an unknown name or a wrong size; else each window is the first max_points in-range points of its key and truncated exactly if one more existed |
| `Windows.StreamIs` | services/anomaly/src/repository.rs:860-896 | place by place: a key's stream is exactly the samples of its channels from window start to end, by frame, sample and channel, with time and decoded value |
| `Windows.KeysSeenIs` | services/anomaly/src/repository.rs:839-858 | the windows' keys are the selected keys that occur, each once, in the order they first occur |
| `Windows.UnseenIsEmpty` | services/anomaly/src/repository.rs:839-858 | a selected key without a window has received no point |
| `Windows.ContributesOwnSamples` | services/anomaly/src/repository.rs:860-896 | with distinct keys a frame contributes exactly the channel's in-range samples, in order |
| `Windows.TimeTruncates` | services/anomaly/src/repository.rs:861-862 | a sample's time drops the fraction of a microsecond towards the frame's time, for either sign |
| `Envelope.LimitedRows` | services/query-api/src/aetus_query/repository.py:485-489 | a cut series has exactly max_points rows, every stride-th from the first, and how many rows follow the last one |
| `Envelope.ShortKept` | services/query-api/src/aetus_query/repository.py:485-489 | a series that is short enough or has no limit is not cut |
| `Envelope.LimitedInOrder` | services/query-api/src/aetus_query/repository.py:485-489 | the rows kept are in order |
| `Envelope.CutsPartition` | services/query-api/src/aetus_query/repository.py:592-600 | with at least as many samples as buckets the bounds cut them into non-empty consecutive buckets |
| `Envelope.BucketOf` | services/query-api/src/aetus_query/repository.py:598-601 | every sample lies in exactly one bucket |
| `Envelope.BucketPoints` | services/query-api/src/aetus_query/repository.py:598-611 | the bucket loop computes the summaries of those buckets, skipping empty slices |
| `Envelope.FullEnvelopeIff` | services/query-api/src/aetus_query/repository.py:598-603 | a channel gets a point for every bucket exactly if its values reach the last one |
| `Envelope.EnvelopeCovers` | services/query-api/src/aetus_query/repository.py:604-611 | every sample of a bucket lies between its point's minimum and maximum, which are samples of the bucket, exactly if none of them is NaN |
| `Envelope.MinWithNaN` | services/query-api/src/aetus_query/repository.py:604-611 | a NaN stays as minimum and maximum only where it comes first; otherwise they bound all other values |
| `Envelope.TotalIs` | services/query-api/src/aetus_query/repository.py:604-611 | a sum is NaN exactly with a NaN or infinities of both signs, infinite only with one, else finite |
| `Envelope.AverageIs` | services/query-api/src/aetus_query/repository.py:604-611 | the average of finite values is their sum over their number; else what their sum is |
| `Envelope.AveragesConserve` | services/query-api/src/aetus_query/repository.py:604-611 | size-weighted averages of finite samples add up to their sum |
| `Series.GatherFrame` | services/query-api/src/aetus_query/repository.py:538-540 | the dictionary after a frame holds, per key, what came before plus the frame's in-range values |
| `Series.Gather` | services/query-api/src/aetus_query/repository.py:516-540 | fails exactly if a frame cannot be decoded; else values, insertion order and timestamps are those of all frames |
| `Series.RawSeries` | services/query-api/src/aetus_query/repository.py:507-560 | the answer lists every channel once, as samples or as an envelope |
| `Series.SharedValues` | services/query-api/src/aetus_query/repository.py:516-540 | if frames share one list of distinct channels, each channel has exactly its in-range samples, one per timestamp |
| `Series.SharedEnvelope` | services/query-api/src/aetus_query/repository.py:542-613 | then, with more samples than points: exactly max_points buckets; each encloses the channel's samples exactly if none is NaN; finite samples keep their sum |
| `Series.OwnTimes` | services/query-api/src/aetus_query/repository.py:516-540 | with distinct channels per frame, whatever the lists: each collected value, and the place where its own time stands among the timestamps |
| `Series.AtOwnTimesIff` | services/query-api/src/aetus_query/repository.py:516-560 | a key's values stand at their own times' places exactly if no frame with samples in range that lacks the key comes before one that carries it |
| `Series.NoGapAnswers` | services/query-api/src/aetus_query/repository.py:545-560 | then the samples answered are the values with their own times |
| `Series.SamplesAnswer` | services/query-api/src/aetus_query/repository.py:542-560 | with no more timestamps than points the answer for such a key is its samples with their own times |
| `Series.TimedIs` | services/query-api/src/aetus_query/repository.py:516-540 | place by place: a key's samples are exactly those of the channels carrying it with timestamps in range, by frame and sample, with timestamp and decoded value |
| `Series.TimesAre` | services/query-api/src/aetus_query/repository.py:528-534 | the timestamps are those of all samples in range, by frame and sample |
| `Series.SeriesOfIs` | services/query-api/src/aetus_query/repository.py:542-613 | in general values and timestamps are paired by position; beyond max_points there are buckets, none if no point is allowed |
| `Series.StampIsNearest` | services/query-api/src/aetus_query/repository.py:563-567 | a timestamp is the nearest microsecond, ties to the even one |
| `RateLimiter.Limiter.Consume` | services/ingest-api/src/aetus_ingest/rate_limit.py:40-64 | decision and dictionary after a request, including errors, fresh keys and eviction |
| `RateLimiter.LevelIs` | services/ingest-api/src/aetus_ingest/rate_limit.py:53-55 | a bucket holds what it had plus the rate for every second since its last refill, at most the burst |
| `RateLimiter.KnownKey` | services/ingest-api/src/aetus_ingest/rate_limit.py:53-64 | a known key has what it earned since its last refill, up to the burst; one token is taken or the wait for it reported |
| `RateLimiter.NewKey` | services/ingest-api/src/aetus_ingest/rate_limit.py:48-51 | a new key is admitted with a full burst less one; beyond 50,000 buckets exactly those unused for over an hour go |
| `RateLimiter.Limiter.Cleanup` | services/ingest-api/src/aetus_ingest/rate_limit.py:66-72 | exactly the buckets idle past the given limit, or an hour if none or zero is given, go, and their number is returned |
| `RateLimiter.Limiter.RemoveStale` | services/ingest-api/src/aetus_ingest/rate_limit.py:74-80 | deleting the collected keys one by one keeps exactly the others |
| `RateLimiter.KeptSound` | services/ingest-api/src/aetus_ingest/rate_limit.py:54-64 | in every run of a limiter that never forgets tokens stay within [0, burst] and both clocks are equal and past |
| `RateLimiter.StateSound` | services/ingest-api/src/aetus_ingest/rate_limit.py:40-80 | in every run, with any eviction, every bucket in the dictionary has a valid plan, tokens within [0, burst], and clocks equal and past |
| `RateLimiter.StateMirrors` | services/ingest-api/src/aetus_ingest/rate_limit.py:40-80 | in every reachable state a forgotten bucket would be full |
| `RateLimiter.EvictionUnobservable` | services/ingest-api/src/aetus_ingest/rate_limit.py:40-80 | if burst <= rate * idle limit, every answer equals that of a limiter that never forgets |
| `RateLimiter.EvictionObservable` | services/ingest-api/src/aetus_ingest/rate_limit.py:66-80 | for every shorter idle limit of a sweep some run answers differently |
| `RateLimiter.RetryAfterIsLeast` | services/ingest-api/src/aetus_ingest/rate_limit.py:54-61 | an idle key is admitted after a wait exactly if the wait is at least retry_after |
| `RateLimiter.AdmittedAtMost` | services/ingest-api/src/aetus_ingest/rate_limit.py:40-64 | without eviction, at most burst + rate * (t - s) requests are admitted in any window [s, t] of any run |
| `RateLimiter.ServedAtMost` | services/ingest-api/src/aetus_ingest/rate_limit.py:40-80 | with eviction the same bound holds if idle limits let the bucket refill |
| `RateLimiter.BoundFails` | services/ingest-api/src/aetus_ingest/rate_limit.py:66-72 | for every shorter idle limit of a sweep some run serves twice the burst and breaks the bound |
| `RateLimiter.BoundFailsCrowded` | services/ingest-api/src/aetus_ingest/rate_limit.py:74-80 | the same through the eviction at 50,000 buckets, without any sweep |
| `RateLimiter.BoundHoldsIff` | services/ingest-api/src/aetus_ingest/rate_limit.py:40-80 | the bound holds of every run with a sweep limit exactly if a bucket refills within it and within an hour |
| `RateLimiter.AnswersAlikeIff` | services/ingest-api/src/aetus_ingest/rate_limit.py:40-80 | so does equality with the limiter that never forgets |
| `Outbox.BackoffDoubles` | services/anomaly/src/webhook.rs:26-29 | delays double from 1 to 256 seconds and stay there; the cap of 300 is never reached |
| `Outbox.Repository.EnqueueWebhooks` | services/anomaly/src/repository.rs:539-582 | every enabled endpoint has a row afterwards; new rows are pending, without attempts and due at once, for endpoints that had none; others are kept |
| `Outbox.InsertedRows` | services/anomaly/src/repository.rs:566-580 | whatever the list, exactly such rows are added and the id sequence moves once per listed endpoint |
| `Outbox.InsertAllCovers` | services/anomaly/src/repository.rs:566-580 | afterwards every listed endpoint has its row |
| `Outbox.Repository.ClaimPending` | services/anomaly/src/repository.rs:647-682 | exactly the first due, active rows of enabled endpoints in (due, id) order |
| `Outbox.SelectsOldest` | services/anomaly/src/repository.rs:651-667 | in the query's own terms: status, due time, enabled endpoint, order by due time and id, limit |
| `Outbox.Repository.RecordSuccess` | services/anomaly/src/repository.rs:684-699 | the log entry and the row update of a delivered attempt |
| `Outbox.Repository.RecordFailure` | services/anomaly/src/repository.rs:701-741 | the log entry, next status and next due time of a failed attempt |
| `Outbox.Repository.DispatchOnce` | services/anomaly/src/dispatcher.rs:8-68 | for every claim before an error: one log entry in claim order with its post's outcome; its row delivered, or retried after the delay, or dead by its attempts; no other row changes; the count is the number of posts that succeeded |
| `Outbox.RecordConsistent` | services/anomaly/src/repository.rs:684-770 | recording keeps every row's status, count and numbering equal to what its log says |
| `Outbox.StepKeepsInvariant` | services/anomaly/src/repository.rs:539-770 | every step of every actor keeps the database consistent and the claims current |
| `Outbox.RunKeepsInvariant` | services/anomaly/src/repository.rs:539-770 | over every run: one row per endpoint and event, attempts numbered 1..attempt_count <= max(1, max_attempts) |
| `Outbox.TerminalForever` | services/anomaly/src/repository.rs:647-741 | delivered and dead_letter rows and their logs never change again |
| `Outbox.AlwaysFailing` | services/anomaly/src/repository.rs:716-720 | a row that only fails is dead_letter exactly after max(1, max_attempts) attempts, and active before |
| `Outbox.DeliveredOnce` | services/anomaly/src/repository.rs:684-699 | a successful attempt is the row's last |
| `Outbox.RetryWaits` | services/anomaly/src/repository.rs:647-741 | over every run: after a row's n-th failure no claim before its next attempt takes it earlier than the n-th delay |
| `Outbox.RowUntilNext` | services/anomaly/src/repository.rs:647-741 | until its next attempt a row stays as it is |
| `DeviceIds.ParsePadded` | services/ingest-api/src/aetus_ingest/control_db.py:268-275 | int reads back what :03d prints, for every number |
| `DeviceIds.DecimalIs` | services/ingest-api/src/aetus_ingest/control_db.py:275 | decimals stand for the number, without a leading zero |
| `DeviceIds.PaddedIs` | services/ingest-api/src/aetus_ingest/control_db.py:275 | the format fills up with zeros to three characters |
| `DeviceIds.ParseIntIs` | services/ingest-api/src/aetus_ingest/control_db.py:270-273 | int accepts exactly an optional sign before digits with single underscores inside, and reads their number |
| `DeviceIds.StrippedIs` | services/ingest-api/src/aetus_ingest/control_db.py:270-273 | white space is taken off both ends and nothing else |
| `DeviceIds.AfterLastDashIs` | services/ingest-api/src/aetus_ingest/control_db.py:270 | the part after the last dash, or none without a dash |
| `DeviceIds.GeneratedIsFresh` | services/ingest-api/src/aetus_ingest/control_db.py:259-275 | one more than the largest suffix gives an id not in the table, on both stores |
| `DeviceIds.GeneratedIs` | services/ingest-api/src/aetus_ingest/control_db.py:275 | prefix, dash and the number with at least three digits |
| `DeviceIds.LikeIff` | services/ingest-api/src/aetus_ingest/control_db.py:262-265 | prefix, dash and anything; SQLite compares the lower-case id |
| `DeviceIds.LargestSuffix` | services/ingest-api/src/aetus_ingest/control_db.py:267-274 | the scan finds the largest suffix number among matching ids, skipping what int rejects |
| `DeviceIds.PrefixKept` | services/ingest-api/src/aetus_ingest/control_db.py:260-261 | a plain lower-case prefix is kept as it is |
| `DeviceIds.BeforeDashIs` | services/ingest-api/src/aetus_ingest/control_db.py:260 | the part before the first dash |
| `DeviceIds.CharacterClasses` | services/ingest-api/src/aetus_ingest/control_db.py:261 | which letters change case and which characters are kept |
| `DeviceIds.PlainConcat` | services/ingest-api/src/aetus_ingest/control_db.py:261 | dropping is character by character, in place |
| `DeviceIds.PrefixIs` | services/ingest-api/src/aetus_ingest/control_db.py:261 | without a letter or digit the prefix is "device" |
| `DeviceIds.PrefixIgnoresCase` | services/ingest-api/src/aetus_ingest/control_db.py:260-261 | the prefix does not depend on case |
| `DeviceIds.NeverCollides` | services/ingest-api/src/aetus_ingest/control_db.py:212-222 | when calls run one after the other the insert never violates a constraint, so the retries are unused |
| `DeviceIds.Store.SeedDevices` | services/ingest-api/src/aetus_ingest/control_db.py:108-128 | all upserts or, when a seed hardware id is taken, none |
| `DeviceIds.SeedAllIs` | services/ingest-api/src/aetus_ingest/control_db.py:113-127 | a seeded device has the token of its last seed; a known one otherwise stays, a new one has hardware "seed-" and its id and model "seeded" |
| `DeviceIds.SeedingSpares` | services/ingest-api/src/aetus_ingest/control_db.py:113-127 | a device without a seed stays as it is |
| `DeviceIds.SeedAllFailsIff` | services/ingest-api/src/aetus_ingest/control_db.py:113-127 | seeding fails exactly if a new seed's hardware id is already there |
| `DeviceIds.Store.NextDeviceId` | services/ingest-api/src/aetus_ingest/control_db.py:523-539 | normalized prefix and one more than the largest suffix |
| `DeviceIds.Store.IssueDeviceToken` | services/ingest-api/src/aetus_ingest/control_db.py:188-257 | known hardware keeps its row's id, unknown hardware gets the generated one; nothing else changes |
| `DeviceIds.StepKeeps` | services/ingest-api/src/aetus_ingest/control_db.py:108-257 | no step removes a device, changes its hardware id or breaks uniqueness |
| `DeviceIds.RunUnique` | services/ingest-api/src/aetus_ingest/control_db.py:188-275 | hardware to device is one to one in every reachable table |
| `DeviceIds.ReissueKeepsId` | services/ingest-api/src/aetus_ingest/control_db.py:223-232 | issuing to the same hardware any time later returns the same device id |
| `DeviceIds.IssuedIdsDiffer` | services/ingest-api/src/aetus_ingest/control_db.py:455-539 | different hardware never gets the same device id in any run |

## Left out

- Wi-Fi, HTTP, BLE, GPIO, RTC and NVS code: foreign calls; only "post succeeded" and "queue had room" remain, as arbitrary inputs.
- SHA-256, HMAC, JWT and token checks; routing, configuration, Kafka and Redis clients, frontends, metrics text.
- nanopb's decoder, extension fields, pointer-allocated fields, UTF-8 validation and float-as-double: not used by this schema or compiled out.
- Wrap-around of size_t in a counting stream: a message whose encoding does not fit a 32-bit address space is excluded by `Message.Representable`.
- Pointers inside the field iterator are offsets into the message; a null message leaves the data pointer as it was, which is not modelled.
- Descriptor.LoadAt: only the packed values; where data and count are is part of `Descriptor.FieldIter.LoadValues`.
- IEEE rounding: sample values are real numbers, infinities or NaN (negative zero is zero), scales, offsets and token counts are reals; doubles and floats in events travel as bit patterns.
- SignalCodec.PackPython: the rounding of a Python float to float32, with its overflow error; float32 samples enter as bit patterns.
- Series.RawSeries: units and the labels of the response (device, key, resolution) are not modelled.
- RateLimiter: threads that read the clock before waiting for the lock can be served out of clock order, and a bucket can then go below zero; runs here are in clock order. `BoundHoldsIff` and `AnswersAlikeIff` take the plans of all keys to be valid.
- Timestamp equality between the two services: one rounds, the other truncates to microseconds; each is modelled as it is. 64-bit overflow of the sample time is not modelled.
- DrainQueue.Context.EnqueueInInterrupt: records without a table; with one the item would own blocks of the application's record, which `QueueItem.InterruptCopyApartIff` states. The shared static item and its lock are not modelled.
- DrainQueue.Context.CopyRecord: after a denied copy the application's record is damaged (`QueueItem.DeniedCopyDamages`); the tasks of `DrainQueue.UploaderTask` leave such a record alone.
- DrainQueue.Context.EnqueueTelemetry: a record whose values take 2 GiB or more, which no device holds, is not covered.
- Device id, boot id, firmware version and uptime are an arbitrary header for every round; only the counter and the item's time are filled in.
- aetus_flush: the DONE bit may come from a drain already running, so nothing is claimed about it.
- DrainQueue.Context.DrainQueue: the loop stops after the given number of rounds, which stands for any bound on how long the uploader runs.
- Between counting an item's reason and freeing its block the drain loop lets no other task act; the step system does.
- Signal frames in one `Uploader` run keep a live total below 4 GiB, as a 32-bit heap does.
- Outbox: several dispatchers at once (claiming takes no row lock), changes of max_attempts during a run, a crash between the log entry and the row update, deletion of rows, payloads.
- DeviceIds.Store.SeedDevices: a seeded id that is present while its seed hardware id belongs to another row is taken as an update.
- DeviceIds: concurrent transactions; Unicode digits, spaces and case folding, Python's limit on digits of an int, timestamps.
- The numpy path of the Python packer, the FFT and other detectors, rollup queries.
