# RedisShake-Web kernel: a verified model

RedisShake-Web copies the data of Redis source nodes to a Redis target: from each source it takes an RDB
snapshot and then the stream of commands, filters and transforms the entries, sends them to one or many target
shards, and shows for each source the offset up to which the targets have acknowledged everything. This project
models the kernel of that program in Dafny and proves what it relies on:

* **The acknowledgement protocol.** `TrackerModel.dfy` and `TrackerObject.dfy` (bounded window, completions in any
  order), `Completion.dfy` (nested countdowns) and the eight `Pipeline*.dfy` files: all readers, consumer goroutines, callbacks and target
  shards as one state machine whose runs are all interleavings. `Pipeline.dfy` is the machine, `PipelinePlan.dfy`
  what the consumer does with one entry, `PipelineInvariant.dfy` the invariant, `PipelineProof.dfy` and
  `PipelineReplies.dfy` its preservation, `PipelineTheorems.dfy`, `PipelineFence.dfy` and `PipelineAtRest.dfy` the
  results. `StandaloneWriter.dfy` goes one level down, to the channel, counter and socket operations of one shard, and
  `WriterShard.dfy` shows that this is the shard the pipeline assumes; `SourceEvents.dfy` does the same for the sender at
  the other end.
* **Byte streams.** `RotatingFiles.dfy` (the file pair between receiver and sender), `Diskless.dfy` (the end
  marker in a reused buffer), `Resp.dfy`, `RespProof.dfy`, `RespExact.dfy`, `RespReader.dfy`, `Commands.dfy` and
  `SendAof.dfy` (the wire protocol, the reader that reads ahead, offsets of parsed commands), `AofLoader.dfy` (the second parser).
* **The RDB format.** `Lzf.dfy`, `RdbStrings.dfy`, `Listpack.dfy`, `Ziplist.dfy`, `Intset.dfy`, `StreamNode.dfy` and
  `StreamProof.dfy`, `Bloom.dfy`; `Rewrite.dfy`, `RewriteObject.dfy`, `RewriteTarget.dfy` and `RewriteProof.dfy` turn
  values into commands and run the commands on a target; `RdbLoader.dfy` and `RdbLoaderProof.dfy` are the opcode loop
  over a whole file, and `RdbTarget.dfy` what the file does to a target.
* **Fast forms.** `CrcTables.dfy`, `CrcTableProof.dfy` and `Crc.dfy` (table checksums), `Slots.dfy` and
  `ClusterRouter.dfy` (hash tags and the cluster router), `UniqueQueue.dfy` and `ScanPipeline.dfy` (the queue without
  duplicates and the pipelined dump and restore).

`Basics.dfy` holds bytes, integers and numerals. A panic of the program (`log.Panicf`, an index out of range, a
failed type assertion) is an outcome of its own in every model. Formats are given twice: as the reader the program
has, and as an encoder of every form the format allows, so that a reader is shown to invert the format and to leave
what follows untouched. Goroutines that share state are state machines on values; everything that runs in one
goroutine keeps its loops, arrays and objects.

Where the code does not do what its comments or its format ask for, the code is modelled and the exact condition
is proved: ziplists and listpacks of more elements than their count field holds, a SELECT that arrives as an entry,
the snapshot fence without the end of the snapshot, null strings and attributes when they are discarded or read
past, map keys that are nil, errors or collections, stream identifiers from 2^63 on, an end marker inside a
snapshot, and a key that expires in the very millisecond it is read.

## Model

| member | source | states |
|---|---|---|
| `TrackerModel.StepKeepsShows` | internal/progress/offsets.go:52-84 | one registration or completion, known or not, keeps the bounded queue in step with the full history |
| `TrackerModel.LedgerShowsCompletedPrefix` | internal/progress/offsets.go:49-84 | after any calls in any order, with duplicates, the shown offset is the last of the longest all-done prefix and the queue holds exactly the rest |
| `TrackerModel.VisibleOffsetNeverDecreases` | internal/progress/offsets.go:49-84 | with registered offsets that never go down the shown offset never goes down |
| `TrackerObject.Tracker.Acquire` | internal/progress/offsets.go:52-57 | a slot is taken or the call fails with the context done; the taken slots are the queued positions plus those about to be queued |
| `TrackerObject.Tracker.Enqueue` | internal/progress/offsets.go:58-66 | the position joins the end of its own node's queue and no other node changes |
| `TrackerObject.Tracker.Track` | internal/progress/offsets.go:52-84 | registers exactly one position, or nothing when the context wins |
| `TrackerObject.Tracker.PopDone` | internal/progress/offsets.go:73-81 | the pop loop releases exactly the done front, and never waits for a slot to give back |
| `TrackerObject.Tracker.Finish` | internal/progress/offsets.go:70-81 | marks one position and leaves its node in step with its history, all other nodes untouched |
| `TrackerObject.Tracker.Snapshot` | internal/progress/offsets.go:86-97 | shows exactly the known offsets of completed prefixes |
| `TrackerObject.Completion.Call` | internal/progress/offsets.go:67-83 | the callback completes its registration once; later calls change nothing; freed slots are exactly the positions released |
| `Completions.RunIsExact` | internal/entry/completion.go:10-32 | under any interleaving of divisions and calls a callback has fired exactly if it was called or all its parts have fired |
| `Completions.JustifiedMeansLeavesCalled` | internal/entry/completion.go:8-32 | a fired callback has had every leaf below it called, at any depth of nesting |
| `Completions.RootFiresOnceAfterAllLeaves` | internal/entry/completion.go:8-32 | the root fires at most once, and exactly once all leaves have been called, whatever the repetition and order |
| `Completions.Store.SplitCompletion` | internal/entry/completion.go:10-32 | hands out one fresh callback per part; a division into nothing fires at once |
| `Completions.Store.Call` | internal/entry/completion.go:23-29 | a call changes the counters of exactly the chain above it, as the run of the model says |
| `PipelinePlan.PlanIsSound` | internal/kernel/run.go:261-306 | what the consumer does with one entry divides every callback at most once and sends each command to each of its shards once, in order |
| `PipelineTheorems.StepKeepsInv` | internal/kernel/run.go:245-310 | every step of every goroutine keeps the whole invariant of the pipeline |
| `PipelineTheorems.RunKeepsInv` | internal/kernel/run.go:239-310 | the invariant holds in every reachable state, at any cancellation point |
| `PipelineTheorems.VisibleOffsetIsAcknowledged` | internal/kernel/run.go:245-310 | if the shown offset is X, every entry with offset at most X was filtered out or each of its commands answered by every shard it went to |
| `PipelineTheorems.SelectHoldsTheOffsetBack` | internal/writer/redis_standalone_writer.go:174-181 | a SELECT that comes out of the transformation is answered without its callback, so the shown offset never reaches its entry |
| `PipelineFence.SnapshotFence` | internal/reader/sync_standalone_reader.go:158-187 | once any offset is shown, every snapshot entry emitted has been answered; the whole snapshot has exactly if the loader reached the end of the file |
| `PipelineFence.WindowBounded` | internal/progress/offsets.go:49-57 | registered and unreleased positions of all sources together never exceed the limit |
| `PipelineFence.OrderPreserved` | internal/writer/redis_cluster_writer.go:76-99 | each shard gets the commands of a source in stream order, each copy once |
| `PipelineAtRest.FiredExactlyWhenDealtWith` | internal/kernel/run.go:277-298 | at rest a registered entry has run its callback exactly if it is dealt with and holds no SELECT |
| `PipelineAtRest.VisibleOffsetIsExact` | internal/progress/offsets.go:68-83 | with no callback under way the shown offset is exactly that of the longest prefix dealt with, so nothing acknowledged stays hidden |
| `PipelineAtRest.FenceWithoutSnapshot` | internal/rdb/rdb.go:276-277 | a concrete run in which a cancelled loader lets the fence through and the base offset shows without the snapshot |
| `StandaloneWriter.RunKeepsInv` | internal/writer/redis_standalone_writer.go:88-184 | in every interleaving of the two loops, down to single operations, the wait-reply channel is the unanswered suffix of the wire |
| `StandaloneWriter.RepliesMatch` | internal/writer/redis_standalone_writer.go:156-158 | the answer in hand is the answer to the command it is matched with |
| `StandaloneWriter.AcknowledgedInOrder` | internal/writer/redis_standalone_writer.go:156-182 | callbacks run in the order of `Write`, skipping only SELECT entries, and only for executed commands |
| `StandaloneWriter.OwnDatabase` | internal/writer/redis_standalone_writer.go:88-98 | every executed entry ran in its own database if and only if, among the entries handed over and executed, no SELECT of another database came right before an entry of its own database |
| `StandaloneWriter.OwnDatabaseWithoutSelect` | internal/writer/redis_standalone_writer.go:120-123 | without SELECT entries every entry runs in its own database |
| `StandaloneWriter.StraySelectMisplaces` | internal/writer/redis_standalone_writer.go:120-123 | a concrete run in which a SELECT entry sends the next entry to a foreign database |
| `StandaloneWriter.UnansweredBytes` | internal/writer/redis_standalone_writer.go:141-178 | the counter is the bytes in flight plus those of answered SELECT entries, which are never taken off; exact if and only if there are none; never negative |
| `StandaloneWriter.WindowHolds` | internal/writer/redis_standalone_writer.go:126-130 | in every run the bytes in flight stay within the limit unless a single entry alone is in flight, and the counter does unless at most one is |
| `WriterShard.PipelineMovesShards` | internal/writer/redis_cluster_writer.go:76-99 | every step of the pipeline moves every shard by one of four moves: nothing, one more item, an answer, the end of a callback |
| `WriterShard.WriterMoves` | internal/writer/redis_standalone_writer.go:100-184 | every operation of the writer's two loops is one of the same moves, as the pipeline sees it, for entries of the pipeline and for heartbeats |
| `WriterShard.WriterIsAShard` | internal/writer/redis_standalone_writer.go:84-184 | whatever the interleaving inside the writer, the pipeline sees a shard that makes its moves, and what counts as answered has been executed in the order handed over |
| `RotatingFiles.RunKeepsInv` | internal/utils/file_rotate/aof_writer.go:30-53 | every interleaving of file operations keeps the files a gapless cut of the stream, the first one named 0 |
| `RotatingFiles.OneStream` | internal/utils/file_rotate/aof_reader.go:43-104 | the bytes read are a prefix of those written and the reader's offset is the start plus the bytes read |
| `RotatingFiles.RemovedOnlyWhenUsedUp` | internal/utils/file_rotate/aof_reader.go:55-71 | a file is removed only when the writer has closed it, the reader has read all of it, and the next file is there |
| `RotatingFiles.NeverStuck` | internal/utils/file_rotate/aof_reader.go:73-104 | while something is unread the reader can read on or move on, except between the writer's close and its next open |
| `Diskless.CopyToFront` | internal/reader/sync_standalone_reader.go:434-434 | the overlapping copy inside one buffer moves the tail to the front unharmed |
| `Diskless.Round` | internal/reader/sync_standalone_reader.go:433-466 | one round writes all but the last 40 bytes, or detects the marker, and what it keeps is again a slice of the buffer |
| `Diskless.ReceiveDiskless` | internal/reader/sync_standalone_reader.go:422-466 | the loop writes exactly the bytes before the first read boundary at which the stream ends with the marker, and stops there |
| `Diskless.FirstMatchIsFirst` | internal/reader/sync_standalone_reader.go:443-450 | the boundary chosen is one where the marker stands, and no earlier boundary has it |
| `Diskless.DeliversPayload` | internal/reader/sync_standalone_reader.go:422-466 | the payload is delivered exactly if a read ends right behind the marker and none ends earlier behind a look-alike |
| `Diskless.MarkerOnlyAtEnd` | internal/reader/sync_standalone_reader.go:422-466 | if the marker occurs only at the end, every split into reads delivers the payload |
| `Diskless.MarkerInsideCutsShort` | internal/reader/sync_standalone_reader.go:443-450 | for every payload, buffer size and place at which the marker stands inside, some split that delivers the whole stream cuts it short there or before |
| `Diskless.EverySplitDeliversIff` | internal/reader/sync_standalone_reader.go:422-466 | every split delivers the payload if and only if the marker stands nowhere in the stream but at its end |
| `RespProof.ReadReplyInverts` | internal/client/proto/reader.go:93-289 | every reply of the protocol, nested, with nulls, with plain attributes and with map keys that can be indexed with, is read back as what it means, leaving what follows |
| `RespProof.DiscardInverts` | internal/client/proto/reader.go:447-494 | a reply without attributes and null strings is discarded to the byte |
| `RespProof.DiscardAgreesWithRead` | internal/client/proto/reader.go:447-494 | discarding such a reply takes exactly the bytes that reading it takes |
| `RespExact.NullStringDiscard` | internal/client/proto/reader.go:466-475 | discarding a null string takes two bytes of the next reply |
| `RespExact.AttributesDiscard` | internal/client/proto/reader.go:483-490 | discarding plain attributes stops in front of the reply they belong to |
| `RespExact.ExactDiscard` | internal/client/proto/reader.go:457-494 | for every reply of which only the last part is not plain, at any depth: where discarding ends, namely behind it, two bytes too far, or in front of a reply that belongs to it |
| `RespExact.DiscardsWholeIffPlain` | internal/client/proto/reader.go:457-494 | such a reply, arrays and maps included, is discarded whole if and only if it is plain |
| `RespExact.DamageCanHide` | internal/client/proto/reader.go:476-490 | with a null string in the middle the totals can agree after all, in an array and in attributes that are then read right; so beyond these replies the conditions are sufficient only |
| `RespExact.NeverRightWhenShort` | internal/client/proto/reader.go:93-181 | no reply of the protocol is read as what it means without its first two bytes |
| `RespExact.ReadsAttributedIff` | internal/client/proto/reader.go:110-114 | a readable reply behind attributes of which only the last part is not plain is read as what it means if and only if the attributes are plain (where they end in attributes of a further reply, that one is readable too) |
| `RespExact.ReadsMapIff` | internal/client/proto/reader.go:263-289 | a map of readable items is read as what it means if and only if no key is a nil, an error, an array or a map |
| `RespExact.NullAttributeReadsAnother` | internal/client/proto/reader.go:110-114 | a concrete legal reply that is silently read as another value, because a null string among its attributes takes its first two bytes |
| `RespExact.NullKeyEndsTheMap` | internal/client/proto/reader.go:269-273 | a map with a null key is read as a nil, with the rest of the map left over |
| `RespReader.Reader.NextLine` | internal/client/proto/reader.go:128-150 | the line is that of the stream however the bytes come in |
| `RespReader.Reader.Reply` | internal/client/proto/reader.go:152-181 | for every chunking of reads the buffered reader returns what the protocol says and uses exactly those bytes |
| `RespReader.Reader.Items` | internal/client/proto/reader.go:238-261 | the loop over array elements, with nil and error elements stored |
| `RespReader.Reader.Pairs` | internal/client/proto/reader.go:263-289 | the loop over map pairs, ended by a key that is an error |
| `RespReader.Reader.Skip` | internal/client/proto/reader.go:457-494 | the discarding loops agree with the model for every chunking |
| `RespReader.Reader.Position` | internal/client/proto/reader.go:63-65 | offset minus buffered bytes is the position behind the last byte used |
| `Commands.Writer.WriteArgs` | internal/client/proto/writer.go:35-58 | appends the encoding of the command to what is waiting |
| `Commands.Writer.WriteBytes` | internal/client/proto/writer.go:116-130 | appends length, bytes and line end of one argument |
| `Commands.ReadsWhatWasWritten` | internal/client/proto/writer.go:35-58 | for any arguments of any bytes, reading what was written returns them and leaves any trailing bytes |
| `SendAof.Sender.Loop` | internal/reader/sync_standalone_reader.go:534-604 | for every chunking of reads the loop sends the same events and counts each offset to the end of the command parsed |
| `SendAof.Sender.SendProgress` | internal/reader/sync_standalone_reader.go:606-615 | reports progress when offsets are tracked and the cancellation does not win |
| `SendAof.OneEventEach` | internal/reader/sync_standalone_reader.go:534-604 | command k yields exactly one event, at start plus the encoded lengths of commands 1 to k, in the database of the last SELECT |
| `SendAof.OffsetsIncrease` | internal/reader/sync_standalone_reader.go:552-554 | offsets are strictly increasing |
| `SendAof.CancelLosesAtMostOne` | internal/reader/sync_standalone_reader.go:538-615 | whenever the context is cancelled and whichever arm each select takes, what is sent is what the rounds begun before would send, but for at most the last report of progress |
| `SourceEvents.StreamCanBeEmitted` | internal/reader/sync_standalone_reader.go:158-187 | behind the fence at the start offset, every event of every stream of commands is one that the pipeline lets the source emit, in order and with its offset |
| `AofLoader.ReadArgsLoop` | internal/aof/aof.go:131-149 | the argument loop, with its failures and panics, reads what the model says |
| `AofLoader.LoadLoop` | internal/aof/aof.go:82-153 | the parse loop sends what the model says and ends with its status, at whatever round it is cancelled |
| `AofLoader.CancelSendsPrefix` | internal/aof/aof.go:83-85 | a cancelled load has sent a prefix of the uncancelled one |
| `AofLoader.LoadSendsCommands` | internal/aof/aof.go:82-153 | exactly the commands of the file are sent, in order, up to the first time stamp beyond the recovery time |
| `AofLoader.ParsersAgree` | internal/aof/aof.go:121-151 | from the bytes written for any commands the loader sends the commands that the protocol reader delivers |
| `Lzf.LzfDecompress` | internal/rdb/structure/string.go:46-78 | the in-place loop succeeds exactly if the input decodes to the declared length, and then returns it; no index leaves its array |
| `Lzf.CopyReference` | internal/rdb/structure/string.go:67-71 | the reference loop copies front to back, so that an overlapping reference repeats itself |
| `Lzf.CopyLiteral` | internal/rdb/structure/string.go:53-58 | the literal loop copies as far as input and output reach |
| `Lzf.CopyIsPeriodic` | internal/rdb/structure/string.go:65-71 | a back reference continues the output with the period of its distance |
| `Lzf.DecodeInvertsEncode` | internal/rdb/structure/string.go:46-78 | for all literal runs of 1 to 32 bytes and references of distance 1 to 8192 and length 3 to 264, decoding the encoding gives their expansion |
| `Lzf.OnlyEncodingsDecode` | internal/rdb/structure/string.go:46-78 | nothing else decodes |
| `RdbStrings.ReadLengthInverts` | internal/rdb/structure/length.go:21-63 | all four forms of a length are read back, leaving what follows |
| `RdbStrings.ReadIntInverts` | internal/rdb/structure/int.go:34-58 | little-endian signed integers are read back |
| `RdbStrings.ReadInt24Inverts` | internal/rdb/structure/int.go:44-48 | widening by a zero byte below and shifting back gives the 24-bit two's-complement value |
| `RdbStrings.ReadStringInverts` | internal/rdb/structure/string.go:17-44 | strings stored plain, as integers of 8, 16 or 32 bits, or compressed are read back, leaving what follows |
| `Listpack.BackLengthAgrees` | internal/rdb/structure/listpack.go:155-167 | the bytes skipped are as many as the format's rule writes, and they stand for the length of the entry |
| `Listpack.ReadEntryInverts` | internal/rdb/structure/listpack.go:60-152 | every encoding of an element is read back with its back length skipped |
| `Listpack.ReadLoop` | internal/rdb/structure/listpack.go:47-51 | the loop appends the elements of the model |
| `Listpack.ReadPayloadExactly` | internal/rdb/structure/listpack.go:42-57 | a listpack of up to 65535 elements is read back, one of more panics |
| `Listpack.ReadListpackInverts` | internal/rdb/structure/listpack.go:42-57 | inside any form of a string it is read back, leaving what follows |
| `Ziplist.ReadEntryInverts` | internal/rdb/structure/ziplist.go:65-114 | every encoding of an entry is read back, with one or five bytes for the length before |
| `Ziplist.ReadZlLoop` | internal/rdb/structure/ziplist.go:36-52 | both loops, counted and uncounted, read what the model says |
| `Ziplist.ReadZlPayloadExactly` | internal/rdb/structure/ziplist.go:27-53 | fewer than 65535 entries are read back; with more the list is cut off before the first five-byte field, or panics if there is none |
| `Ziplist.ZipListReadBackIff` | internal/rdb/structure/ziplist.go:36-41 | a ziplist is read back if and only if it has fewer than 65535 entries |
| `Ziplist.ReadZipListInverts` | internal/rdb/structure/ziplist.go:27-53 | inside any form of a string it is read back, leaving what follows |
| `Intset.FillElements` | internal/rdb/structure/intset.go:16-30 | the loop fills the slice with the members of the model, or fails where it does |
| `Intset.ReadIntsetInverts` | internal/rdb/structure/intset.go:11-32 | an intset of width 2, 4 or 8 is read back as its numerals, leaving what follows |
| `RewriteObject.Object.RewriteListObject` | internal/rdb/types/list.go:30-96 | the loops over plain, ziplist and both quicklist encodings send what the model says, panics included |
| `RewriteObject.Object.RewriteSetObject` | internal/rdb/types/set.go:24-63 | the loops over plain, intset and listpack encodings send what the model says |
| `RewriteObject.Object.RewriteHashObject` | internal/rdb/types/hash.go:30-61 | every hash type, read the Redis or the Valkey way, sends what the model says |
| `RewriteObject.Object.SendTuples` | internal/rdb/types/hash.go:77-138 | the stepped loops over pairs and triples, with the index running off the end of an odd list |
| `RewriteObject.Object.ReadFieldsLoop` | internal/rdb/types/hash.go:63-165 | the loops over fields read one by one, with and without expiry |
| `RewriteProof.RewriteSends` | internal/rdb/types/list.go:50-96 | for every encoding of a list or set the commands are a deletion and the elements in order, and reading stops where the value ends |
| `RewriteProof.RewritePreservesCollection` | internal/rdb/types/list.go:30-96 | run on any database, the commands leave exactly the encoded list, in order, or set at the key, and every other key as it was |
| `RewriteProof.ExpiryRecovered` | internal/rdb/types/hash.go:150-155 | undoing the subtraction of the minimum in 64-bit arithmetic gives the absolute expiry back |
| `RewriteProof.RewriteHashSends` | internal/rdb/types/hash.go:30-165 | for every encoding of a hash the commands are a deletion and the fields in order with their expiries, and reading stops where the value ends |
| `RewriteProof.RewritePreservesHash` | internal/rdb/types/hash.go:30-165 | run on any database, the commands leave exactly the encoded fields with their absolute expiries at the key, and every other key as it was |
| `RewriteProof.OddOneOut` | internal/rdb/types/hash.go:77-97 | a list of pairs is sent whole if and only if its length is even; otherwise the whole pairs go out before the panic |
| `RewriteProof.TriplesWholeIff` | internal/rdb/types/hash.go:116-138 | a list of triples is sent whole if and only if its length is a multiple of three and every third element is a number |
| `RewriteTarget.DelAndSendAll` | internal/rdb/types/set.go:24-40 | deletion and one command per element build exactly the collection from any earlier content |
| `RewriteTarget.DelAndSendFields` | internal/rdb/types/hash.go:30-34 | deletion and one or two commands per field build exactly the hash, the last mention of a field holding |
| `RdbLoader.Loader.ParseRdbEntry` | internal/rdb/rdb.go:117-281 | the opcode loop changes fields and sends entries as the model says, to the end-of-file opcode, a panic or a cancellation |
| `RdbLoader.CancelSendsPrefix` | internal/rdb/rdb.go:273-279 | a cancelled load has sent a prefix of the uncancelled one |
| `RdbLoaderProof.ValueRead` | internal/rdb/rdb.go:213-228 | the bytes captured while a value is parsed are exactly its encoding |
| `RdbLoaderProof.TtlAfterNotes` | internal/rdb/rdb.go:137-210 | after any opcodes in any order the time to live is what the last expiry among them leaves, at the time it was read, and unchanged without one |
| `RdbLoaderProof.FileIsSentKeyByKey` | internal/rdb/rdb.go:134-281 | for every file, with opcodes between keys in any order and number and each length in a form of its own: every key is sent in place, in the database chosen last, with the last expiry since the key before and none other's, and with exactly its own bytes or the commands that rebuild it |
| `RdbLoaderProof.ExpiringNowIsKept` | internal/rdb/rdb.go:198-262 | for either form of expiry, of any size: the RESTORE carries zero, or no PEXPIRE is sent, if and only if the expiry is the very millisecond of the clock; the key then lives for ever |
| `RdbTarget.DumpMeans` | internal/rdb/rdb.go:213-258 | the captured bytes, read as the format says, are the value and nothing else |
| `RdbTarget.KeyPut` | internal/rdb/rdb.go:226-267 | what is sent for a key puts its value and its time to live there, by RESTORE or, above the size limit, by commands |
| `RdbTarget.FileIsRestored` | internal/rdb/rdb.go:134-281 | a whole file on any target: with distinct keys, and existing ones replaced or absent, what is sent leaves exactly the file's values and times to live at its keys and every other key of every database as it was |
| `StreamNode.EntryStep` | internal/rdb/types/stream.go:116-132 | one turn of the entry loop by index reads what the model says |
| `StreamNode.EntryLoop` | internal/rdb/types/stream.go:115-140 | the loop over live and deleted counts ends and sends what the model says |
| `StreamNode.ZipLoop` | internal/rdb/types/stream.go:122-125 | values are paired with the fields of the master entry |
| `StreamProof.EntriesRead` | internal/rdb/types/stream.go:115-140 | the loop ends right behind the last entry, having sent exactly the live entries in order, with shared fields or their own |
| `StreamProof.NodesSendLiveEntries` | internal/rdb/types/stream.go:83-141 | from the bytes of any nodes the live entries of all nodes are sent in order, and reading stops where the last node ends |
| `StreamProof.IdIsExact` | internal/rdb/types/stream.go:91-120 | the identifier sent is the one stored if and only if both its parts are below 2^63 |
| `Bloom.GetLinkPos` | internal/rdb/types/mbbloom.go:211-227 | finds the filter and position an iterator points at, and none exactly at the end of the chain |
| `Bloom.GetEncodedChunk` | internal/rdb/types/mbbloom.go:196-209 | the chunk is non-empty until the end, within the limit, inside one filter, and the bytes of the chain at the iterator |
| `Bloom.RewriteChunks` | internal/rdb/types/mbbloom.go:146-154 | the loop ends; the chunks concatenate to all filter bytes, and each iterator is one plus the bytes sent so far |
| `Bloom.ChunksRebuild` | internal/rdb/types/mbbloom.go:146-154 | a target that places each chunk by its iterator ends up with the filters of the source, whatever it held |
| `CrcTableProof.Crc16TableRight` | internal/utils/crc16.go:47-80 | every entry of the 16-bit table is eight steps of polynomial 0x1021 |
| `CrcTableProof.Crc64TableRight` | internal/utils/crc64.go:3-68 | every entry of the 64-bit table is eight steps of polynomial 0x95ac9329ac4bc9b5 |
| `Crc.CalcCRC64` | internal/utils/crc64.go:91-97 | the table loop computes the bitwise checksum |
| `Crc.Crc16` | internal/utils/crc16.go:82-89 | the table loop computes the bitwise checksum |
| `Crc.Digest.Update` | internal/utils/crc64.go:78-82 | an update continues the bitwise checksum |
| `Crc.InPieces` | internal/utils/crc64.go:78-82 | updating in pieces gives the checksum of the whole |
| `Crc.Dumper.CreateValueDump` | internal/rdb/rdb.go:283-292 | builds type, value, version and checksum in the reused buffer |
| `Crc.DumpChecks` | internal/reader/scan_standalone_reader.go:304-305 | the checksum over a whole dump is zero, and the dump splits back into its type and value |
| `Slots.KeyHash` | internal/commands/keys.go:106-123 | the labelled scan hashes what section "Hash tags" of the Redis Cluster specification says, and the slot is below 16384 |
| `Slots.CalcSlots` | internal/commands/keys.go:98-104 | every key gets the slot of its hash tag |
| `Slots.SameTagSameSlot` | internal/commands/keys.go:106-123 | keys around the same tag hash that tag |
| `ClusterRouter.CollectSlots` | internal/utils/cluster_nodes.go:70-109 | the slot lists are the ranges written out, and the count is that of all of them |
| `ClusterRouter.LoadClusterNodes` | internal/writer/redis_cluster_writer.go:39-60 | lists of 16384 slots load exactly if they are in range and distinct; then the router is total, the last check cannot fire, and a slot belongs to a node if and only if that node listed it |
| `ClusterRouter.Pigeonhole` | internal/writer/redis_cluster_writer.go:55-59 | as many distinct slots as there are leave none free |
| `ClusterRouter.Route` | internal/writer/redis_cluster_writer.go:89-98 | keys of one slot go to its owner, keys of different slots panic |
| `ClusterRouter.RouteKeys` | internal/writer/redis_cluster_writer.go:89-98 | from its keys to its shard: on a loaded router a command whose keys have one slot reaches the one node that listed the slot, and any other panics |
| `ClusterRouter.SameTagOneShard` | internal/commands/keys.go:98-123 | keys with the same hash tag have the same slot |
| `UniqueQueue.StepKeepsInv` | internal/utils/UniqueQueue.go:20-42 | the marks are exactly the items being put, queued or taken, each once, and the queue is first in, first out |
| `UniqueQueue.NoPutIsLost` | internal/utils/UniqueQueue.go:20-42 | in every interleaving the queue holds no duplicates, and once nothing is on the way every Put has been followed by a delivery of its item |
| `UniqueQueue.CanBeDrained` | internal/utils/UniqueQueue.go:20-42 | from every reachable state, without a further Put, there are steps after which every Put has been followed by a delivery of its item |
| `ScanPipeline.DumpLoop` | internal/reader/scan_standalone_reader.go:207-236 | the requests on the wire, with a SELECT exactly where the database changes |
| `ScanPipeline.DumpedInOwnDatabase` | internal/reader/scan_standalone_reader.go:218-233 | the requests of a key stand together and run in the database of that key |
| `ScanPipeline.RestoreLoop` | internal/reader/scan_standalone_reader.go:242-274 | the second loop, with its own idea of the database, reads for each key exactly the answers to the requests of that key, and stops exactly at a failed SELECT |

## Left out

- Channel capacities: channels of the pipeline and of the writer are unbounded here, which allows more runs than the program has; the tracker's window, the inner channel of the unique queue and the writer's byte window are bounded as in the program.
- Liveness: the writer's size-wait loop does not flush, ticker-driven flushes and blocking sends are only shown to be safe.
- Update in place by goroutines: the pipeline, the standalone writer, the rotating files and the unique queue are state machines on values, because their steps interleave; the tracker, the completions and every single-goroutine loop are objects and methods.
- Filters and transformations: the regular expressions and Lua functions are arbitrary functions on entries.
- StandaloneWriter.RunKeepsInv: the mode without replies is not modelled; a panic on an error reply ends a run in a state that the machine has reached, and is a step of its own in the pipeline.
- RotatingFiles.OneStream: asks for a start offset that is not negative, as PSYNC offsets are.
- RespExact.ReadsAttributedIff: attributes with a null string or further attributes anywhere but at their end; there `DamageCanHide` shows that plain attributes are not necessary.
- RespExact.DiscardsWholeIffPlain: likewise for a reply that is not plain anywhere but at its end.
- RespProof.ReadReplyInverts: a floating-point line is kept as its text, without the check that it is a number, and a map keeps its pairs in order of arrival.
- AofLoader.LoadLoop: lines longer than the buffer of the file reader are not part of the model.
- RdbLoader.Loader.ParseRdbEntry: module auxiliary data, sorted sets, streams and module values are not among the values of the opcode loop here; the clock is a parameter.
- RdbTarget.FileIsRestored: a RESTORE carries the type and value that its dump splits into, and the target takes them for what they build when read as the format says; times to live do not run down.
- RewriteProof.RewritePreservesHash: the target records an absolute field expiry whatever its own clock says.
- StreamProof.NodesSendLiveEntries: consumer groups, pending entries and the XSETID after the nodes.
- Bloom.RewriteChunks: the header command, which is laid out through unsafe pointers and holds floating-point numbers.
- ClusterRouter.CollectSlots: the text of CLUSTER NODES is not parsed; slot ranges are the input.
- ScanPipeline.RestoreLoop: what becomes of the answers to DUMP, PTTL and TYPE (an error there is a panic, else RESTORE, fallback, time to live, skipped types) is settled by a few branches per key and is not modelled.
- Sorted sets, zipmaps (not implemented in the program) and the key specifications of the command table.
- 64-bit wrap-around of byte counters and offsets; wrap-around is modelled where numbers come from a file.
- Web interface, authentication, configuration, SQLite progress store, status reporting, TLS, rate limiting and logging.
