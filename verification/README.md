# A verified model of the shared-state cores of MPlayerXP and its lavc tools

This project models, in Dafny, the parts of the repository whose correctness depends on several threads,
several calls or several connections: ring buffers, queues, a frame controller, a connection server, a
reference-counted pool, and the printers whose output other programs read back.  Everything is proved for all
inputs, all runs and all interleavings of the modelled steps.

| File | What it models |
|---|---|
| `StreamCache.dfy` | the two-process stream cache of `TOOLS/cache2.c`: one step per shared load, store or copied byte, and the same calls as methods over the shared buffer |
| `PictureRing.dfy` | the four-slot picture ring of `lavc/ffplay.c` with its backward step and its flush |
| `PacketQueue.dfy`, `SeekEpochs.dfy` | the packet queue of `lavc/ffplay.c` as a heap-linked list, and the flush-marker protocol of three threads around it |
| `DemuxThread.dfy` | the bounded fifo between a demux thread and the main thread of `lavc/ffmpeg.c`, with shutdown |
| `FrameSync.dfy` | the duplicate/drop controller `do_video_out` of `lavc/ffmpeg.c` |
| `Connections.dfy` | connection list, bandwidth, feeders and wake-ups of `lavc/ffserver.c` |
| `RtspFraming.dfy` | RTP packets interleaved with RTSP replies on one socket (section 10.12 of RFC 2326) |
| `FeedLog.dfy` | the circular feed file of `lavc/ffserver.c` |
| `FramePool.dfy` | the frame buffers and free list of `lavc/cmdutils.c` |
| `BlockRing.dfy` | the block ring of `TOOLS/buffer.c` |
| `Sections.dfy`, `Writer.dfy` | the section tree and the writer stack machine of `lavc/ffprobe.c` |
| `Json.dfy`, `JsonOutput.dfy` | a reader for RFC 8259, and the JSON writer proved against it |
| `CompactOutput.dfy` | the compact/CSV writer and a reader for section 2 of RFC 4180 |
| `Escapers.dfy`, `CommandLine.dfy` | the c, flat, ini, xml, JSON and command-line escapers with their decoders |
| `Modular.dfy`, `Wrappers.dfy` | arithmetic of ring positions; optional values and minima |

Protocols are step functions over a state value, one step per access to shared data, with a label that says
who moves and what the environment does; runs are sequences of labels or of states.  Fields marked as history
record what was delivered, shown or sent and never influence a step.  Objects that one thread updates in place
are classes whose methods are proved equal to the step or specification function named in their contract.
Integers are unbounded and timestamps and durations exact.  Results of libav, SDL, sockets, files and
allocation are arguments of the call: how many bytes `send` takes, whether a write or an allocation succeeds,
what a read returns.

Where the behaviour differs from what a reader would expect, the exact condition is proved:

* the two cache processes can both stall for ever exactly when `buffer_size - back_size < fill_limit`
  (`StreamCache.StallCondition`), which for `cache_init(size, sector)` means
  `size - size % sector - size / 2 < 8 * sector` (`StreamCache.CacheStallsIff`); from 18 sectors on they never do,
  and `TOOLS/cache2.c:146` asks for 512;
* after a flush that ended with an empty picture queue an old picture is never displayed, but it can become
  readable again exactly when a refresh had already passed the two tests of `pictq_prev_picture`
  (`PictureRing.OldPictureReexposed`), which a run reaches (`PictureRing.LatePrevReachable`);
* packets of two epochs are decoded without a flush between them only after `packet_queue_put` failed to allocate
  the marker, whose return value is ignored; `SeekEpochs.LostMarkerMatters` says exactly when that has
  consequences, and `SeekEpochs.LostMarkerReachable` gives a run;
* in VFR mode the encoder sees strictly increasing timestamps in every run exactly when the picture duration is
  at most 1.6 encoder ticks (`FrameSync.VfrIncreasingIff`);
* the test that should send RTCP packets on odd channels reads the length prefix and never fires
  (`RtspFraming.ChannelAlwaysEven`);
* when the feed index cannot be written, the feeder that reconnects replaces the newest packet; stores are oldest
  first exactly when that did not just happen, or there is only one slot (`FeedLog.ReplacesOldestIff`);
* packets of an interleaved connection are thrown away exactly when the buffer for a frame cannot be opened
  (`RtspFraming.LostIff`);
* an empty packet or frame directly inside `packets_and_frames` leaves a comma before a closing brace, and the
  whole JSON output is then invalid (`JsonOutput.JsonRoundTrip`);
* a CSV record also needs a separator that does not occur in the section name, which is printed unquoted, and no
  empty tags section before its first field (`CompactOutput.CsvRecordReads`);
* the c escaper is ambiguous for the separators b, f, n and r, and its items cannot be told apart on a line for
  the backslash (`Escapers.CInjectiveIff`, `Escapers.CFramingIff`).

## Model

| member | source | states |
|---|---|---|
| StreamCache.FillerNeverOverwrites | TOOLS/cache2.c:98-119 | the slot the filler is about to write holds no position of [min_filepos, max_filepos) |
| StreamCache.ReadPositionIsSlot | TOOLS/cache2.c:49-51 | the reader's fix-up finds read_filepos mod buffer_size, also while offset lags behind max_filepos |
| StreamCache.StepKeepsInv | TOOLS/cache2.c:44-129 | every single load, store and copied byte of either process keeps the cache invariant, and the three positions never decrease |
| StreamCache.Run | TOOLS/cache2.c:44-129 | under every interleaving all buffer accesses are in bounds, the invariant holds, min_filepos never decreases |
| StreamCache.ReaderSeesTheFile | TOOLS/cache2.c:44-129 | what cache_read delivered is the file's prefix up to the read position, and at least min(back_size, read_filepos) bytes are kept behind it |
| StreamCache.FillsWhenSpace | TOOLS/cache2.c:95-112 | a fill adds at least one byte if and only if the free space reaches fill_limit |
| StreamCache.FillIsLongest | TOOLS/cache2.c:95-112 | a fill takes all the free space, unless the end of the buffer or 32768 bytes come first |
| StreamCache.FillerProgress | TOOLS/cache2.c:81-129 | when the reader has caught up and there is space, max_filepos grows within a bounded number of filler steps, whatever the reader does |
| StreamCache.StuckForever | TOOLS/cache2.c:44-129 | once the reader waits and the filler gives up for lack of space, no step of either changes anything |
| StreamCache.NeverStuck | TOOLS/cache2.c:81-142 | with buffer_size - back_size >= fill_limit no reachable state is stuck |
| StreamCache.StuckReachable | TOOLS/cache2.c:81-142 | otherwise a stuck state is reachable from every state at rest |
| StreamCache.StallCondition | TOOLS/cache2.c:81-142 | both processes can stall for ever exactly when buffer_size - back_size < fill_limit |
| StreamCache.InitBuilds | TOOLS/cache2.c:131-142 | the buffer is the largest whole number of sectors within the size, half of the size is kept back, and a fill needs eight sectors |
| StreamCache.CacheStallsIff | TOOLS/cache2.c:81-142 | the exact condition for a stall in the two arguments of cache_init; with 18 sectors or more no reachable state is stuck |
| StreamCache.ReachFillCall | TOOLS/cache2.c:81-129 | the steps of one uninterrupted cache_fill lead to the state the in-place method produces |
| StreamCache.ReachChunk | TOOLS/cache2.c:46-76 | the steps of one pass of the read loop deliver the next bytes of the file, at least one |
| StreamCache.ReachReadCall | TOOLS/cache2.c:44-79 | the steps of one uninterrupted cache_read of cached bytes deliver exactly those bytes, wrapping round the buffer where needed |
| StreamCache.Cache.constructor | TOOLS/cache2.c:131-142 | the sizes are those of InitBuilds, stated as bounds, and the invariant holds |
| StreamCache.Cache.Transfer | TOOLS/cache2.c:116-119 | copies len bytes of the file to consecutive slots and leaves the rest |
| StreamCache.Cache.Fill | TOOLS/cache2.c:81-129 | the new shared state is that of the filler's steps; bytes are added exactly when there is space, as many as FillIsLongest says |
| StreamCache.Cache.ReadChunk | TOOLS/cache2.c:46-76 | one pass delivers the next bytes of the file up to the wrap, and none only when none are cached |
| StreamCache.Cache.Read | TOOLS/cache2.c:44-79 | delivers the next bytes of the file, as many as asked for or cached, and moves only the read position |
| PictureRing.VideoKeepsInv | lavc/ffplay.c:1387-1490 | every step of queue_picture and of the flush keeps counters, slot contents and flags consistent |
| PictureRing.MainKeepsInv | lavc/ffplay.c:1131-1278 | every step of the refresh, forward and backward, keeps counters, slot contents and flags consistent |
| PictureRing.BackwardStepReexposes | lavc/ffplay.c:1142-1156 | a backward step does nothing or makes readable exactly the picture before the read position, still intact |
| PictureRing.RingIsConsistent | lavc/ffplay.c:1131-1228 | in every interleaving the count is 0..4, readable slots hold consecutive pictures in order, and the slot being filled is not readable |
| PictureRing.ShowsTheCurrentPicture | lavc/ffplay.c:1189-1278 | what is displayed is the complete, published picture at the read position |
| PictureRing.QueueAlone | lavc/ffplay.c:1362-1490 | an uninterrupted queue_picture puts its picture into the slot at windex, counts it and changes nothing else |
| PictureRing.RefreshAlone | lavc/ffplay.c:1180-1278 | an uninterrupted, unforced refresh does nothing on an empty queue, else shows the picture at the read position and takes it out; a skipped one is taken out unseen |
| PictureRing.LateDropLeavesOne | lavc/ffplay.c:1218-1226 | a late picture is given up, unseen, exactly when the next one is queued behind it |
| PictureRing.BackOnlyWhenForced | lavc/ffplay.c:1177-1178 | in every run the read position falls only between the start of a forced refresh and its first test of the queue |
| PictureRing.UnforcedGoesForward | lavc/ffplay.c:1173-1278 | in every run without a forced refresh the pictures shown are strictly increasing and at most two are queued |
| PictureRing.NothingOldAfterFlush | lavc/ffplay.c:1501-1519 | after a flush ended with an empty queue no older picture is ever displayed, nor re-exposed unless a refresh was already past the tests of the backward step |
| PictureRing.OldPictureReexposed | lavc/ffplay.c:1142-1156 | an old picture can be re-exposed if and only if that was the case |
| PictureRing.LatePrevReachable | lavc/ffplay.c:1142-1156 | a run from the start reaches that case: one picture shown, a forced refresh past its tests, a whole flush |
| PacketQueue.WeightOfRest | lavc/ffplay.c:415-424 | taking the first packet lowers the byte count by its size plus one node |
| PacketQueue.QueueIsLog | lavc/ffplay.c:308-437 | after any operations the queue holds the packets accepted since the last flush and not taken, in order, and is closed exactly when the last abort or start was an abort |
| PacketQueue.CallResults | lavc/ffplay.c:308-437 | what get and put report after any operations: abort, the oldest packet left, a wait or nothing; -1 exactly when closed or out of memory |
| PacketQueue.LinkedQueue.constructor | lavc/ffplay.c:352-358 | an empty, aborted queue with zero counters |
| PacketQueue.LinkedQueue.Append | lavc/ffplay.c:320-325 | the node becomes the tail of the list and nothing else moves |
| PacketQueue.LinkedQueue.PutPrivate | lavc/ffplay.c:308-331 | appends the packet and its weight, or returns -1 and changes nothing when aborted or out of memory; the tail and both counters stay exact |
| PacketQueue.LinkedQueue.FlushAll | lavc/ffplay.c:360-375 | walks the list to its end and empties it, keeping the abort flag |
| PacketQueue.LinkedQueue.SetAbort | lavc/ffplay.c:384-393 | sets the abort flag and nothing else |
| PacketQueue.LinkedQueue.StartQueue | lavc/ffplay.c:395-402 | clears the flag and queues the marker in one critical section |
| PacketQueue.LinkedQueue.GetPacket | lavc/ffplay.c:404-437 | returns abort, the oldest packet, nothing, or a wait, with exact counters |
| SeekEpochs.StepKeepsStructure | lavc/ffplay.c:308-437 | the queue is aborted exactly while the stream is not live, and between flush and marker it holds markers only |
| SeekEpochs.QueueFollowsOps | lavc/ffplay.c:2511-2582 | in every run the queue is what the puts, gets, flushes, start and abort of the three threads make of a new one |
| SeekEpochs.SeekAlone | lavc/ffplay.c:2511-2533 | an uninterrupted seek leaves nothing but the marker in the queue of a registered stream, and others untouched |
| SeekEpochs.ReaderKeepsOneEpoch | lavc/ffplay.c:2511-2537 | seeks, flush-then-marker and packet puts never put packets of two epochs behind each other without a marker between them |
| SeekEpochs.DecoderKeepsOneEpoch | lavc/ffplay.c:1498-1522 | gets, decoder flushes and decoding keep that, counted from the packet decoded last |
| SeekEpochs.ControlKeepsOneEpoch | lavc/ffplay.c:2254-2269 | opening, starting, aborting and closing while a seek is under way keep it |
| SeekEpochs.ReaderKeepsFlushed | lavc/ffplay.c:2511-2537 | every queued packet stays covered by a flush after its seek |
| SeekEpochs.DecoderKeepsFlushed | lavc/ffplay.c:1498-1502 | gets and decoder flushes keep that |
| SeekEpochs.ControlKeepsFlushed | lavc/ffplay.c:2254-2269 | opening and closing keep it |
| SeekEpochs.NoUnflushedDecode | lavc/ffplay.c:2511-2537 | over every run that loses no marker, no two packets of different epochs are decoded without a flush between them, and no packet is decoded by a decoder neither flushed nor opened since its seek |
| SeekEpochs.AfterLostMarker | lavc/ffplay.c:316-318 | the state after the marker's node could not be allocated |
| SeekEpochs.LostMarkerMatters | lavc/ffplay.c:308-331 | after a lost marker some run mixes epochs if and only if the decoder's state after the queue is left from an earlier epoch with no seek under way; and likewise for a missing flush |
| SeekEpochs.LostMarkerReachable | lavc/ffplay.c:308-331 | a run reaches such a loss although the decoder was flushed after the seek, for an older marker |
| SeekEpochs.LostFlushReachable | lavc/ffplay.c:308-331 | and one where it was not flushed at all |
| DemuxThread.ThreadKeepsInv | lavc/ffmpeg.c:2563-2592 | every step of the demux thread keeps mutual exclusion, order, flags and the waiting condition |
| DemuxThread.GetKeepsInv | lavc/ffmpeg.c:2651-2671 | every step of get_input_packet_mt keeps them |
| DemuxThread.FreeKeepsInv | lavc/ffmpeg.c:2594-2627 | every step of free_input_threads keeps them |
| DemuxThread.GetTakes | lavc/ffmpeg.c:2657-2659 | a get moves at most the oldest queued packet to the main thread |
| DemuxThread.FreeTakes | lavc/ffmpeg.c:2611-2624 | shutdown discards queued packets from the oldest on |
| DemuxThread.GetKeepsReturned | lavc/ffmpeg.c:2651-2671 | the packets delivered are, in order, those that the calls returned and the one in hand |
| DemuxThread.PacketsExactlyOnce | lavc/ffmpeg.c:2563-2671 | in every run the calls return the packets read once and in order, EOF means all were delivered, at most 8 are queued, at most one is written after shutdown began |
| DemuxThread.ReadsUntilFailure | lavc/ffmpeg.c:2569-2579 | in every run the packets read are the frames returned, and the thread stops only after a read failed for good or transcoding finished, not for a read to be repeated |
| DemuxThread.ThreadAlone | lavc/ffmpeg.c:2569-2591 | an uninterrupted pass of the loop queues the frame while fewer than 8 are queued, and otherwise waits with it in hand |
| DemuxThread.NoDeadlock | lavc/ffmpeg.c:2594-2627 | until the end some thread can step, and a joined thread is never blocked |
| DemuxThread.ShutdownProgress | lavc/ffmpeg.c:2594-2627 | once shutdown began every step decreases a rank, except an early wakeup before the signal |
| DemuxThread.ShutdownEnds | lavc/ffmpeg.c:2594-2627 | at most 408 further steps and 7 for each early wakeup, and when none is left the thread is joined and the fifo empty |
| DemuxThread.GetAlone | lavc/ffmpeg.c:2651-2671 | the steps of an uninterrupted call deliver the oldest packet and wake the waiting thread, or record EOF or EAGAIN |
| DemuxThread.InputFile.GetInputPacketMt | lavc/ffmpeg.c:2651-2671 | the method takes the protocol through the steps of the call, returns what the protocol records, and delivered grows by it |
| DemuxThread.InputFile.DrainFifo | lavc/ffmpeg.c:2611-2614 | the loop takes the protocol to the signal, with exactly the queued packets discarded in order |
| FrameSync.LRint | lavc/ffmpeg.c:811-821 | the nearest integer, ties to even |
| FrameSync.EmitEffect | lavc/ffmpeg.c:843-934 | the loop emits consecutive timestamps, all n unless the recording limit is reached on the way |
| FrameSync.CallEffect | lavc/ffmpeg.c:775-934 | frames emitted, dropped and duplicated by one call, in closed form |
| FrameSync.FormatChosen | lavc/ffmpeg.c:801-803 | the format for every choice and pair of flags |
| FrameSync.OverLimitMeans | lavc/ffmpeg.c:604-615 | the integer comparison means that the frame time in seconds has reached the recording time |
| FrameSync.CallOutcome | lavc/ffmpeg.c:805-934 | the effect of one call from its inputs: a drop exactly when no frame is granted or too many are; otherwise consecutive timestamps below the recording time, duplicates counted, cut only at the first that is not |
| FrameSync.CfrDuplicates | lavc/ffmpeg.c:806-840 | in CFR a picture more than 1.1 ahead is encoded as often as fits best, with one duplicate less and no drop, within max_frames and 30 times the threshold |
| FrameSync.CfrDrift | lavc/ffmpeg.c:806-812 | after a CFR call that nothing cut short, frame time plus duration exceeds sync_opts by at most 0.5 |
| FrameSync.CfrNeverRunsAhead | lavc/ffmpeg.c:806-812 | over every CFR run sync_opts stays below its start or the largest frame end plus 2.1 |
| FrameSync.CfrKeepsUp | lavc/ffmpeg.c:806-840 | over every CFR run whose pictures follow each other within a gap that the threshold allows, the output is never more than 0.5 behind, and a picture is dropped exactly when its end is more than 1.1 behind |
| FrameSync.EncodedInTime | lavc/ffmpeg.c:604-615 | over every run all encoded timestamps are below the recording time, and the stream is finished only by one that is not |
| FrameSync.CeilingReached | lavc/ffmpeg.c:806-812 | the bound 2.1 is attained |
| FrameSync.FrameNumberBounded | lavc/ffmpeg.c:827-934 | frame_number counts emitted frames and never exceeds max_frames |
| FrameSync.CallBalance | lavc/ffmpeg.c:827-852 | one call adds one to emitted plus drops minus dups, unless the recording limit cut it |
| FrameSync.FramesConserved | lavc/ffmpeg.c:827-852 | over every run emitted plus drops equals calls plus dups if and only if no call hit the recording limit |
| FrameSync.CfrTimestampsConsecutive | lavc/ffmpeg.c:843-934 | in CFR the encoder sees consecutive timestamps from the start value |
| FrameSync.VfrJump | lavc/ffmpeg.c:813-818 | with a duration up to 1.6 the VFR jump never goes back |
| FrameSync.VfrAccuracy | lavc/ffmpeg.c:813-818 | an uncut VFR call drops the picture exactly when its end is 0.6 behind, and otherwise encodes it once, at its own timestamp or within 0.6 of its end |
| FrameSync.VfrAhead | lavc/ffmpeg.c:813-934 | timestamps increase strictly over every VFR run with durations up to 1.6 |
| FrameSync.VfrIncreasingIff | lavc/ffmpeg.c:813-818 | they do so in every run with a given duration if and only if it is at most 1.6 |
| FrameSync.PassthroughKeepsTimestamp | lavc/ffmpeg.c:819-822 | the other methods encode every picture once with its own timestamp |
| FrameSync.OutputStream.EncodeFrames | lavc/ffmpeg.c:843-934 | the encoding loop equals its specification |
| FrameSync.OutputStream.DoVideoOut | lavc/ffmpeg.c:775-937 | the counters after a call are those that CallOutcome describes and the run lemmas are about |
| Connections.AcceptKeepsInv | lavc/ffserver.c:783-830 | accepting keeps the accounts, the limit and the references |
| Connections.AcceptEffect | lavc/ffserver.c:783-830 | a connection is taken exactly when there is room and accept succeeded, put in front, and nothing else changes |
| Connections.CloseKeepsInv | lavc/ffserver.c:832-917 | closing takes out exactly the connection's share, clears references to it and releases its feed |
| Connections.KeptWhenClosed | lavc/ffserver.c:832-917 | closing changes nothing about the other connections but references to the closed one |
| Connections.RtpNewKeepsInv | lavc/ffserver.c:3317-3378 | a new RTP connection adds exactly its share |
| Connections.RtpNewEffect | lavc/ffserver.c:3317-3378 | the same for an RTP connection, which is ready at once and adds its bandwidth |
| Connections.RtpPremiseNeeded | lavc/ffserver.c:3366 | that is so exactly when its stream is live or has no bandwidth |
| Connections.ParseEffect | lavc/ffserver.c:1564-1884 | a parsed request changes bandwidth and feed flags by exactly the share the connection gets |
| Connections.ParsedConnOk | lavc/ffserver.c:1564-1884 | the state it leaves the connection in has the stream and role that state needs |
| Connections.ServedIff | lavc/ffserver.c:1467-1884 | a request is served if and only if its stream is known, no redirect and not being fed, and the feed may be written, or the input opens and the bandwidth fits; what the connection is then |
| Connections.HttpParseKeepsInv | lavc/ffserver.c:1467-1884 | requests keep all accounts; a second feeder is refused |
| Connections.WakeKeeps | lavc/ffserver.c:2716-2721 | waking changes no account and no reference |
| Connections.NobodyWaits | lavc/ffserver.c:2716-2778 | after a stored packet, or a failed feeder, no connection waits for that feed |
| Connections.StoredEffect | lavc/ffserver.c:2716-2721 | after a stored packet every connection that waited for the feed is still listed and sends data; nothing else changes |
| Connections.FailedEffect | lavc/ffserver.c:2769-2778 | after a failed feeder it is gone and its feed free; those that waited for it finish; nothing else changes but references to it |
| Connections.FinishesForAReason | lavc/ffserver.c:2301-2436 | in every run a connection that finishes has done so since its own data ended while it was sending, or since the feeder it waited for failed |
| Connections.FeedFailedKeepsInv | lavc/ffserver.c:2769-2778 | the failure path with the close that follows keeps all accounts |
| Connections.StepKeepsInv | lavc/ffserver.c:783-1093 | every event keeps the invariant |
| Connections.ServerAccounting | lavc/ffserver.c:783-917 | at every event boundary: count equals list length within the limit, bandwidth is the exact sum, no dangling rtsp_c, feed_opened iff exactly one connection feeds it |
| Connections.Server.NewConnection | lavc/ffserver.c:783-830 | the state after accept |
| Connections.Server.RtpNewConnection | lavc/ffserver.c:3317-3378 | the state after opening an RTP connection |
| Connections.Server.Unlink | lavc/ffserver.c:840-848 | the walk removes exactly this context |
| Connections.Server.ClearReferences | lavc/ffserver.c:850-854 | the walk clears exactly the references to it |
| Connections.Server.CloseConnection | lavc/ffserver.c:832-917 | the state after close |
| Connections.Server.WakeWaiting | lavc/ffserver.c:2716-2721 | the walk changes exactly the connections waiting for the feed |
| Connections.Server.ReceiveOutcome | lavc/ffserver.c:2716-2778 | the states that StoredEffect and FailedEffect describe |
| Connections.Server.ParseRequest | lavc/ffserver.c:1467-1884 | the state after a request, over all its branches, that ServedIff and ParseEffect describe |
| RtspFraming.PackedHead | lavc/ffserver.c:2483-2488 | reading a length prefix gives back the packet and the rest of the buffer |
| RtspFraming.ChannelAlwaysEven | lavc/ffserver.c:2515-2518 | every interleaved packet goes out on the even channel of its stream |
| RtspFraming.FrameRoundTrip | lavc/ffserver.c:2520-2526 | a receiver following section 10.12 of RFC 2326 gets channel and data back if and only if the length fits 16 bits |
| RtspFraming.ReceiveKeeps | lavc/ffserver.c:936-962 | one received byte: answered exactly at an empty line, given up exactly when 8191 bytes have none; units stay whole and no byte is lost |
| RtspFraming.FlushKeeps | lavc/ffserver.c:1035-1086 | a partial send moves exactly its bytes to the socket, which is free again when all are sent, and keeps units whole |
| RtspFraming.BeginKeeps | lavc/ffserver.c:2528-2547 | starting a packet with a partial send keeps them |
| RtspFraming.SendRtpKeeps | lavc/ffserver.c:2475-2548 | a pass of the sending loop moves at most the first packet of that connection, whole, to the socket |
| RtspFraming.TurnEffect | lavc/ffserver.c:2475-2548 | what a pass does in each case; with a free socket exactly the first packet is begun, byte for byte |
| RtspFraming.RunKeepsInv | lavc/ffserver.c:2461-2547 | all events keep the invariant for any number of RTP connections |
| RtspFraming.WholeUnitsOnly | lavc/ffserver.c:1035-1086 | in every run the socket carries whole units and a beginning of the next, with even channels and 16-bit lengths; requests are complete and in order; and of each connection's packets exactly those not thrown away appear, once and in order |
| RtspFraming.RequestsEndAtEmptyLine | lavc/ffserver.c:936-962 | in every run the bytes received are cut into requests at their first empty lines and nowhere else |
| RtspFraming.LostIff | lavc/ffserver.c:2513-2514 | a packet of a connection is thrown away in a run if and only if some pass for it could send but failed to open the buffer for the frame |
| RtspFraming.ReceiverSeesUnits | lavc/ffserver.c:2520-2526 | a receiver that takes frames at dollar signs and replies elsewhere reads back exactly the units |
| RtspFraming.RtspConnection.ReadRequest | lavc/ffserver.c:936-962 | one received byte: collect, answer, or give up when the buffer is full |
| RtspFraming.RtspConnection.SendPending | lavc/ffserver.c:1035-1086 | the two sending states |
| RtspFraming.RtspConnection.BeginPacket | lavc/ffserver.c:2528-2547 | a framed packet is sent as far as possible and locks the connection otherwise |
| RtspFraming.RtpConnection.SendPacketOn | lavc/ffserver.c:2499-2547 | both connections after one pass of the sending branch |
| FeedLog.WriteAt | lavc/ffserver.c:2695-2696 | the data at its place, everything else unchanged, holes as zeros |
| FeedLog.SlotsBelow | lavc/ffserver.c:2707-2708 | the slot count is the number of aligned positions below the maximum |
| FeedLog.NextSlot | lavc/ffserver.c:2701-2708 | the index update with its wrap is the next slot |
| FeedLog.SlotReused | lavc/ffserver.c:2701-2708 | the store after a full round reuses the oldest slot |
| FeedLog.StoreKeepsLog | lavc/ffserver.c:2691-2714 | a store keeps the header, replaces only what is in the slot at the index, and keeps the rest |
| FeedLog.Retracted | lavc/ffserver.c:2711-2714 | a feeder that reconnects after a failed index write finds the last packet retracted, and it lies where the oldest should be |
| FeedLog.StepAgrees | lavc/ffserver.c:2599-2714 | every event, failed writes and reconnections included, keeps the log in step with its past, and changes the file only by a store or a truncation |
| FeedLog.FeedIsCircularLog | lavc/ffserver.c:2687-2714 | over every run, failed writes and reopenings included, the header is intact, the index aligned and in range, and the last K packets are in their slots, or K-1 while a lost packet waits to be replaced |
| FeedLog.OldestFirst | lavc/ffserver.c:2687-2714 | reading K slots from the index gives the last K packets, oldest first |
| FeedLog.ReplacesOldestIff | lavc/ffserver.c:2711-2714 | the next store of a connected feeder is oldest first if and only if no index write was lost before it connected, or there is one slot |
| FeedLog.LostIndexReachable | lavc/ffserver.c:2711-2714 | a run that ends with a lost packet |
| FeedLog.Feed.constructor | lavc/ffserver.c:3792-3796 | index, size and the adjusted maximum at start-up, from where the run lemmas start |
| FeedLog.Feed.StorePacket | lavc/ffserver.c:2691-2714 | file, index, size and saved index after a store, also on its two error paths |
| FeedLog.Feed.StartReceive | lavc/ffserver.c:2599-2615 | the fields after a feeder connects, with and without truncation |
| FramePool.Pool.Nth | lavc/cmdutils.c:1551-1553 | following next pointers from the head visits the list and ends |
| FramePool.Pool.ChainIsFreeList | lavc/cmdutils.c:1551-1595 | the chain has no cycle and holds exactly the live buffers without references |
| FramePool.PoolsDisjoint | lavc/cmdutils.c:1531 | no buffer belongs to two pools |
| FramePool.Pool.AllocBuffer | lavc/cmdutils.c:1485-1535 | a new unreferenced buffer of the wanted size, or an error |
| FramePool.Pool.PopHead | lavc/cmdutils.c:1551-1553 | the head leaves the list and has no references |
| FramePool.Pool.Replace | lavc/cmdutils.c:1554-1559 | a buffer of the wrong size is freed and replaced, or only freed when allocation fails |
| FramePool.Pool.GetBuffer | lavc/cmdutils.c:1537-1579 | size and format match, one reference is added to a buffer that had none, and every failure leaves the pool consistent |
| FramePool.Pool.AddRef | lavc/ffmpeg.c:1653-1654 | one more reference to a referenced buffer |
| FramePool.Pool.Listed | lavc/cmdutils.c:1588-1590 | the search finds a buffer exactly when it is on the list |
| FramePool.Pool.UnrefBuffer | lavc/cmdutils.c:1581-1595 | one reference less; the last one puts the buffer at the head of the list |
| FramePool.Pool.FreeBufferPool | lavc/cmdutils.c:1620-1629 | frees exactly the listed buffers; what stays live is what is still referenced |
| FramePool.Use | lavc/cmdutils.c:1537-1629 | any sequence of operations keeps the pool valid, with counts equal to the references held |
| BlockRing.BufferedElsewhere | TOOLS/buffer.c:17-35 | no buffered byte lies where the next byte is written |
| BlockRing.Ring.SpaceAccounting | TOOLS/buffer.c:57-63 | get_space + get_delay + buf_read_pos is the capacity |
| BlockRing.Ring.WriteBuffer | TOOLS/buffer.c:17-35 | accepts min(len, get_space) bytes, appends them in order, and changes no full or partly read block |
| BlockRing.Ring.ReadBuffer | TOOLS/buffer.c:37-55 | returns the oldest min(len, bytes in full blocks) bytes and removes them |
| BlockRing.Ring.Append | TOOLS/buffer.c:21-33 | one pass of the write loop |
| BlockRing.Ring.Consume | TOOLS/buffer.c:45-52 | the index updates of one pass of the read loop |
| BlockRing.TotalsBounded | TOOLS/buffer.c:17-63 | never more is returned than accepted, nor held than fits |
| BlockRing.PerformWrite | TOOLS/buffer.c:17-35 | after a write_buffer call the ring is what the numbers of bytes accepted and returned say |
| BlockRing.PerformRead | TOOLS/buffer.c:37-55 | the same after read_buffer |
| BlockRing.Use | TOOLS/buffer.c:17-63 | over any sequence of calls on a new ring every call moves exactly the bytes that fit or are readable, what comes out followed by what is held is what was accepted, in order, and get_space follows from the two totals |
| Sections.NamesPlain | lavc/ffprobe.c:107-124 | section names consist of lower-case letters and underscores |
| Sections.NamesRelated | lavc/ffprobe.c:107-124 | a list is named after its elements |
| Sections.VisibleSelects | lavc/ffprobe.c:361-383 | the items that reach the writer are exactly those asked for, in order and with their values, and every section stays |
| Sections.FilterOnlyFormat | lavc/ffprobe.c:364-366 | a tree with no item in the format section or its tags looks the same under every filter |
| Sections.DecimalInverts | lavc/ffprobe.c:1167 | a printed integer reads back as its value |
| Escapers.RoundTrip | lavc/ffprobe.c:588-606 | every escaper has a decoder that inverts it and, framed, stops exactly at the next unescaped terminator |
| Escapers.NoRawTerminator | lavc/ffprobe.c:588-606 | line ends, quotes and control characters of the format never occur in its output |
| Escapers.UnchangedIff | lavc/ffprobe.c:588-606 | each escaper prints a string as it is if and only if it has none of the characters that need escaping |
| Escapers.CInjectiveIff | lavc/ffprobe.c:588-606 | the c escaper is injective if and only if the separator is none of b, f, n, r |
| Escapers.CFramingIff | lavc/ffprobe.c:588-606 | items end unambiguously if and only if it is not the backslash either |
| Escapers.IniLine | lavc/ffprobe.c:995-1004 | key and value of an INI line are both recovered |
| Escapers.FlatUnitDecodes | lavc/ffprobe.c:837-853 | a flat escape decodes to its character |
| Escapers.IniUnitDecodes | lavc/ffprobe.c:933-958 | an INI escape decodes to its character, hexadecimal ones included |
| Escapers.XmlUnitDecodes | lavc/ffprobe.c:1234-1250 | an XML entity decodes to its character, per section 4.6 of XML 1.0 |
| Escapers.JsonUnitDecodes | lavc/ffprobe.c:1051-1069 | a JSON escape decodes to its character |
| Escapers.CEscapeStr | lavc/ffprobe.c:588-606 | the loop prints the escaped string |
| Escapers.FlatEscapeValueStr | lavc/ffprobe.c:837-853 | the loop prints the escaped string |
| Escapers.IniEscapeStr | lavc/ffprobe.c:933-958 | the loop prints the escaped string, with its fall-through case |
| Escapers.XmlEscapeStr | lavc/ffprobe.c:1234-1250 | the loop prints the escaped string |
| CommandLine.DumpReads | lavc/cmdutils.c:389-410 | a dumped argument, quoted or not, reads back |
| CommandLine.DumpUnquotedIff | lavc/cmdutils.c:389-396 | an argument is logged without quotes if and only if it consists of letters, digits and + , - . / : @ _ |
| CommandLine.CommandLineRoundTrip | lavc/cmdutils.c:420-430 | the logged line reads back as the argument list, empty arguments included |
| CommandLine.DumpArgument | lavc/cmdutils.c:389-410 | the two loops print the dumped argument |
| CommandLine.ReportCommandLine | lavc/cmdutils.c:424-427 | the loop over the arguments |
| JsonOutput.StringReads | lavc/ffprobe.c:1051-1069 | an escaped string is a JSON string for the same text |
| JsonOutput.JsonEscapeStr | lavc/ffprobe.c:1051-1069 | the table lookup and the loop print the escaped string |
| JsonOutput.NumberReads | lavc/ffprobe.c:1156-1169 | a printed integer is a JSON number |
| JsonOutput.TypeItemReads | lavc/ffprobe.c:1100-1105 | the type item reads as a member in front of what follows its comma |
| JsonOutput.MembersRead | lavc/ffprobe.c:1073-1169 | the items of an object section read back as its members, or not at all if a packet inside is empty |
| JsonOutput.ItemsRead | lavc/ffprobe.c:1073-1131 | the same for the elements of an array section |
| JsonOutput.SectionReads | lavc/ffprobe.c:1073-1131 | a printed section reads back as its object or array |
| JsonOutput.JsonRoundTrip | lavc/ffprobe.c:1041-1169 | compact or indented, the output is RFC 8259 text for the same tree if and only if no packet or frame of packets_and_frames is empty |
| JsonOutput.IndentWidth | lavc/ffprobe.c:1071 | four spaces for every level, one at the outermost |
| JsonOutput.CompactOneLine | lavc/ffprobe.c:1133-1169 | in compact form the items of an object stay on one line, whatever the values hold |
| CompactOutput.CsvEscapeStr | lavc/ffprobe.c:611-627 | the search and the copy loop print the quoted field |
| CompactOutput.FieldReads | lavc/ffprobe.c:611-627 | a quoted field reads back under section 2 of RFC 4180 |
| CompactOutput.QuotedIff | lavc/ffprobe.c:611-627 | a value is printed as it is if and only if it has no separator, quote or line end |
| CompactOutput.KeyedItemReads | lavc/ffprobe.c:704-716 | with keys, a text item reads back with its name, marked as a tag inside tags, if and only if the key has no equals sign |
| CompactOutput.RawFieldReads | lavc/ffprobe.c:690-727 | a name or integer printed raw reads back if and only if it has no separator in it |
| CompactOutput.RenderFields | lavc/ffprobe.c:683-728 | with nokey a record body, nested tags included, is its fields with separators between them |
| CompactOutput.LineReads | lavc/ffprobe.c:683-728 | a line of fields reads back if and only if no raw field contains the separator |
| CompactOutput.LineEnds | lavc/ffprobe.c:683-728 | however raw fields split, the reader finds the end of the line and no fewer fields |
| CompactOutput.CsvRecordReads | lavc/ffprobe.c:683-728 | a record reads back as section name and values exactly under the three conditions |
| CompactOutput.RecordsRead | lavc/ffprobe.c:683-728 | the output of a tree reads back as as many records as it has, and they are its records if and only if all are readable |
| CompactOutput.CsvOutputReads | lavc/ffprobe.c:683-728 | the same for the whole output |
| Writer.WriterContext.constructor | lavc/ffprobe.c:278-318 | a writer at level -1 with nothing printed |
| Writer.WriterContext.PrintSectionHeader | lavc/ffprobe.c:320-342 | level, section and item count of the new level, and the header text |
| Writer.WriterContext.JsonPrintSectionHeader | lavc/ffprobe.c:1073-1109 | the JSON header in its four forms |
| Writer.WriterContext.JsonPrintSectionFooter | lavc/ffprobe.c:1111-1131 | the JSON footer in its three forms |
| Writer.WriterContext.CompactPrintSectionHeader | lavc/ffprobe.c:683-693 | the compact header, and the inherited item count of tags |
| Writer.WriterContext.PrintSectionFooter | lavc/ffprobe.c:344-359 | the parent's count grows by one and the footer is printed |
| Writer.WriterContext.PrintItem | lavc/ffprobe.c:704-728 | separator, key and escaped value |
| Writer.WriterContext.PrintString | lavc/ffprobe.c:372-383 | prints and counts the item exactly when it is asked for: optional ones by writers that display them, and in the format section and its tags only the keys named |
| Writer.WriterContext.PrintInteger | lavc/ffprobe.c:361-370 | the same for an integer |
| Writer.WriterContext.PrintLeaf | lavc/ffprobe.c:361-383 | one call adds the text of one item of the visible tree |
| Writer.WriterContext.PrintSection | lavc/ffprobe.c:320-359 | a section and its body leave level and outer counts as they were |
| Writer.WriterContext.PrintBody | lavc/ffprobe.c:320-383 | within ten levels the stack machine prints exactly the text of the visible tree |
| Writer.WriterContext.PrintDocument | lavc/ffprobe.c:320-383 | a whole run prints the document the round-trip lemmas are about |
| Writer.FilterKeepsText | lavc/ffprobe.c:364-366 | a tree without a format section is printed the same whatever -show_format_entry says |
| Writer.WriterJsonReads | lavc/ffprobe.c:372-383 | that JSON document reads back as the visible part of the tree, exactly when no packet or frame is left empty |
| Writer.WriterCsvReads | lavc/ffprobe.c:372-383 | that CSV output reads back as the records of the visible part, exactly when all of them are readable |

## Left out

- Everything behind libav, SDL, sockets, files, `fork`, `poll` and codecs: each call is an arbitrary result.
- Machine overflow of file positions and timestamps, and floating-point rounding.
- The byte transfers of the stream cache are comments in `TOOLS/cache2.c`; they are modelled as copies of `len` bytes at `pos`. Its sleeps, statistics and `cache_stats` are left out.
- `PictureRing` and `SeekEpochs` keep their threads as step functions on values; only the packet queue itself is a linked structure. Pixel data, delays, subtitle and audio queues with the same protocol, and the error exit of `alloc_picture` are left out.
- Steps of the main thread on other input files between two steps on this one; several files are independent copies of `DemuxThread`.
- DemuxThread.InputFile.GetInputPacketMt: a call that the other thread does not interrupt; interleavings are in the step functions.
- The encoder's own output packets, rescaling and statistics in `do_video_out`; `duration` is computed from stream fields that are an argument here.
- Chunked uploads, request text, ACLs, SDP, config parsing and child processes of ffserver; a request is what its parser found. Status pages and the Windows Media rate switch change no account.
- Handlers that change the connection list while the server walks it: events happen at walk boundaries.
- Connections.RtpNewKeepsInv: assumes that streams sent by RTP are live or carry no bandwidth, which the configuration produces; `Connections.RtpPremiseNeeded` shows the assumption is exact.
- Freed packet buffers in the RTP over TCP path: packets are values, and a connection does not close while its packet is in flight.
- RtspFraming.RtpConnection.SendPacketOn: the two checks for a malformed packet buffer cannot fire on what libavformat produces and appear only in the specification function.
- The value of FFM_PACKET_SIZE and the format of the feed header: libavformat is not part of this model, the write index in the header is a field of its own, and short writes count as whole ones, as in the code.
- Pixel memory of frame buffers, stride and edge arithmetic of `alloc_buffer`.
- Reading back whole lines of the compact format with keys: its keys are printed raw, so single items are read back.
- The assembly of feed packets from received pieces, and the first packet of a feeder, which is a header.
- The default, flat, INI and XML section layouts, `flat_escape_key_str` (which loses information by design), and the packet and frame counters only they use.
- White-space normalisation that an XML parser applies to attribute values.
- JSON surrogate pairs: the reader accepts `\u` escapes outside the surrogate range, all the writer produces.
- The key lookup of `fmt_entries_to_show` is a set of keys; libavutil's case folding is not part of this model.
- The RFC 4180 reader accepts any character outside quotes, separators and line ends in an unquoted field, and lines end with LF, as printed.
