# media2 segment pipeline: a model and its proofs

The library moves encoded video and audio between processes. A `Segmenter` cuts a packet
stream into segments, segments travel as bytes, a `SegmentUnpacker` turns them back into
packets, a `Muxer` interleaves packets into an output file, and the demo services (router and
storage) file segments so that a stream can be read back from disk later. This project models
those parts and proves what they promise together:

* **Round trip.** What a job's segmenter was given is what comes out for that job on the other
  side of the wire, exactly if the segmenter is flushed once (`EndToEnd`). The byte format, the
  cutting, the queue with its workers and the expiring stream cache each have their own theorem.
* **Muxer.** The buffer bound for any number of threads, which is attained; first in, first
  out under every interleaving; what exactly is buffered and written after any sequence of
  operations; the grammar of the output over whole runs, opening by opening.
* **Router, registry, storage.** The two indexes agree and never rebind an id, the router lets
  through exactly what it should, storage's cache is coherent in every run and asks the registry
  at most once for a stream, every registered stream can come to disk, and sorting a stream's files by decoding time gives the stream back,
  however often and in whatever order its segments were delivered and stored (`Filing`).

## How the model is laid out

The classes (`Segments.Segment`, `Segmenters.Segmenter`, `Archives.OutputArchive` and
`InputArchive`, `StreamCaches.StreamCache`, `Unpackers.SegmentUnpacker`, `Muxers.Muxer`,
`Registries.JobRegistry`, `Routers.RouterJobHandler`, `Storages.Storage`) follow the C++ methods
statement by statement. Each method is proved against a function over values, and the theorems
are about those functions. Threads are transition systems (`Unpacking`, `MuxerThreads`,
`Archiving`): an action is one unlocked read, one critical section, one message or one write.

| module | what it holds |
|---|---|
| `Prelude`, `Bytes`, `Media`, `Text` | options and sequences; fixed-width fields; packets and segments; printed integers and identifiers |
| `Codec`, `Archives`, `Layouts` | the wire format as functions, the archives that write and read it, and its bytes spelled out |
| `Segments`, `Splitting`, `Segmenters` | the segment object; how streams are cut; the segmenter object |
| `StreamCaches` | the expiring cache and which stream a job sees |
| `Unpacking`, `SingleWorker`, `Unpackers`, `EndToEnd`, `Finishing` | any number of workers; one worker; the unpacker object; the whole way; that closing can be completed |
| `Muxing`, `Muxers`, `MuxerRuns`, `MuxerThreads` | the muxer's state machine and grammar; the object; what runs of it hold and write; several producers |
| `Registries`, `Routers`, `Archiving`, `Histories` | the registry; id replacement; the protocol; how its state follows from what has happened |
| `Storages`, `Filing`, `Storing` | the storage service; what is on disk and reading it back; runs that bring a stream there |

## Where the code decides, not its documentation

* The cache's time to live is called seconds (`include/fr/media2/StreamCache.h`), but
  `src/StreamCache.cpp:44-45` adds it as a bare clock duration. The model counts clock ticks.
* `include/fr/media2/Muxer.h:110-112` says that closing clears the stream data. It does not, so
  the streams of the first opening are announced again after a reopening.
* `bufferMax` is a `long` compared with an unsigned size: a negative limit is a very large one.
* `src/Segmenter.cpp:32-33` suggests flushing until an empty segment arrives. `flush` keeps
  the current segment, so every flush after the first sends the last segment again.
* A worker that loses the race for the last segment calls `unpack` with a null pointer
  (`src/SegmentUnpacker.cpp:94-104`). The model lets it go round its loop again, and
  `SingleWorker.EmptyHandedExactly` says when this situation exists at all.
* `Job::streamIds` is used as a list of strings by the router demo, although `Job.h` now
  declares something else. The model has strings.
* The video key-frame rule fails for a stream that starts without a key frame: the exception
  comes after the current segment has been made, so the next packet is accepted whatever it
  is (`src/Segmenter.cpp:52-62`). `Splitting.VideoDivision` has the exact condition.

## Model

| member | source | states |
|---|---|---|
| Media.AppendedAllKeeps | include/fr/media2/Segment.h:115-119 | Appending any number of packets keeps the header in agreement with the packets (count, timestamps of the first) and leaves job, parameters and time base alone. |
| Codec.PacketRoundTripExactly | include/fr/media2/Serialization.h:57-91 | A packet comes back from its bytes unchanged, leaving exactly what followed, if and only if it has one side-data entry and a positive count, or none and no positive count. |
| Codec.PacketKeepsFirstSideData | include/fr/media2/Serialization.h:65-68 | With several entries the first one and all other fields survive and the rest of the stream is intact. |
| Codec.SideDataRoundTrip | include/fr/media2/Serialization.h:35-48 | Side data comes back whole, with any suffix. |
| Codec.ParametersRoundTrip | include/fr/media2/Serialization.h:105-176 | All codec parameters, the extradata included, come back from 29 fixed-width fields, with any suffix. |
| Codec.PacketsRoundTrip | include/fr/media2/Segment.h:100-119 | A counted run of packets comes back in order. |
| Codec.SegmentRoundTripExactly | include/fr/media2/Segment.h:91-120 | Loading a saved segment from any longer stream gives the segment and leaves exactly the rest, if and only if its header agrees with its packets, the int loop index can count them, and no packet loses side data. |
| Codec.LoadedSegmentExact | include/fr/media2/Segment.h:105-120 | Whatever bytes are loaded into a fresh segment, the result is one that survives the wire. |
| Codec.SegmentAppend | include/fr/media2/Segment.h:91-103 | A segment's bytes do not depend on what is written after them. |
| Bytes.FieldsRoundTrip | include/fr/media2/Serialization.h:57-91 | Fields read in the order and widths they were written in come back as two's-complement values. |
| Bytes.Put32 | include/fr/media2/Serialization.h:61-65 | Four bytes that read back as the value, signed or unsigned, whatever follows them. |
| Bytes.Put64 | include/fr/media2/Serialization.h:59-60 | Eight bytes that read back as the value, signed or unsigned, whatever follows them. |
| Layouts.LittleEndianAt | include/fr/media2/Serialization.h:59-65 | Byte i of an integer is v / 256^i, rounded down, modulo 256: two's complement, lowest byte first. |
| Layouts.PacketLayout | include/fr/media2/Serialization.h:57-71 | The bytes of a packet, piece by piece in the order of the source. |
| Layouts.ParametersLayout | include/fr/media2/Serialization.h:105-139 | The bytes of the codec parameters, all 29 fields and the extradata in the order of the source. |
| Layouts.SegmentLayout | include/fr/media2/Segment.h:91-103 | The bytes of a segment: job id, stamps, time base, parameters, count, packets. |
| Archives.SaveSideData | include/fr/media2/Serialization.h:35-40 | Appends the bytes of one side-data record and nothing else. |
| Archives.LoadSideData | include/fr/media2/Serialization.h:42-48 | Reads what the format function reads, and fails where it fails. |
| Archives.SavePacket | include/fr/media2/Serialization.h:57-71 | Field by field, writes the packet's wire form: at most the first side-data entry. |
| Archives.LoadPacket | include/fr/media2/Serialization.h:73-91 | Reads the packet the format defines and leaves the format's rest; fails exactly when the format has no packet there. |
| Archives.SaveParameters | include/fr/media2/Serialization.h:105-139 | Writes the parameters' wire form; extradata only if there is some. |
| Archives.LoadParameters | include/fr/media2/Serialization.h:141-176 | Reads the parameters the format defines; fails exactly when it has none. |
| Segments.Segment.Create | src/Segment.cpp:28-45 | A new segment has the job and parameters given and no packets. |
| Segments.Segment.constructor | src/Segment.cpp:23-26 | The load target has the null job and no packets. |
| Segments.Segment.Append | src/Segment.cpp:68-75 | The new state is the old one with the packet at the end; the first packet sets the timestamps. |
| Segments.Segment.Next | src/Segment.cpp:62-66 | A fresh, empty segment of the same job, time base and parameters. |
| Segments.Segment.Copy | src/Segment.cpp:47-56 | A copy has the same packets and an agreeing header, and equals a consistent original. |
| Segments.Segment.Empty | src/Segment.cpp:58-60 | True exactly without packets. |
| Segments.Segment.Save | include/fr/media2/Segment.h:91-103 | Writes the segment's wire form and nothing else. |
| Segments.Segment.Load | include/fr/media2/Segment.h:105-120 | Reads the format's header and appends its packets to those already held; fails exactly when the format does. |
| Segments.Segment.SavePackets | include/fr/media2/Segment.h:100-102 | The loop writes every packet in order and nothing else. |
| Segments.Segment.LoadPackets | include/fr/media2/Segment.h:115-119 | The loop appends exactly the packets the format has at this place, or fails where it has none. |
| Splitting.RunPartitions | src/Segmenter.cpp:42-75 | After any stream the emitted segments and the current one concatenate to the packets accepted, and every one carries the job, parameters and time base with an agreeing header. |
| Splitting.RunIsLossless | src/Segmenter.cpp:46-64 | Nothing is lost, repeated or reordered if and only if the parameters are there and a video stream starts with a key frame. |
| Splitting.OutcomeExactly | src/Segmenter.cpp:42-75 | In every state, a call returns normally if and only if the packets held and sent grow by exactly that packet; the two exceptions come exactly without parameters and for a first video packet without a key frame; the one leaves no segment, the other an empty one. |
| Splitting.AcceptedAreKept | src/Segmenter.cpp:42-75 | The packets for which the call returns normally are exactly those the segments hold, over any stream. |
| Splitting.VideoDivision | src/Segmenter.cpp:57-73 | The video segments are the division with exactly one key frame per segment, in front, if and only if the first packet is a key frame; any division with that property is this one. |
| Splitting.VideoPieces | src/Segmenter.cpp:57-73 | Every video segment starts with its only key frame if the first packet is a key frame; otherwise the first segment does not. |
| Splitting.KeyDivisionUnique | src/Segmenter.cpp:66-73 | Two lists of key-led segments with the same packets are equal. |
| Splitting.AudioPieces | src/Segmenter.cpp:65-74 | Closed form: after n packets exactly (n-1)/m segments are out, the i-th is packets [i*m, (i+1)*m), and the current one is the remaining 1 to m, with m = max(1, nframes). |
| Splitting.FlushLaw | src/Segmenter.cpp:28-40 | After k flushes, the destructor's included, the emissions are the stream followed by k-1 copies of the last segment, all of one job, stream and parameters. |
| Splitting.FlushOnce | src/Segmenter.cpp:28-40 | The emissions are exactly the stream if and only if there was one flush. |
| Splitting.FlushesDoNotDisturb | src/Segmenter.cpp:32-40 | Wherever flushes come in between, the segments cut, each sent with the stream of the packet that ends it, and the segment being filled are those of the run without flushes. |
| Splitting.FirstStreamKept | src/Segmenter.cpp:38-45 | Flushes report the stream of the first packet. |
| Splitting.SegmentDtsIncrease | src/Segmenter.cpp:38-75 | Increasing packet decoding times give increasing segment decoding times over boundary emissions and the first flush. |
| Splitting.PiecesNotEmpty | src/Segmenter.cpp:46-74 | No segment of an accepted stream is empty, the current one included. |
| Segmenters.Segmenter.constructor | src/Segmenter.cpp:24-26 | A new segmenter has its job id and limit, and no segment, stream or emission. |
| Segmenters.Segmenter.Process | src/Segmenter.cpp:42-75 | New state and outcome are those of `Splitting.Process`, the step about which `Splitting.OutcomeExactly` says which exception comes when and what it leaves behind. |
| Segmenters.Segmenter.Flush | src/Segmenter.cpp:38-40 | Sends the current segment and keeps it. |
| Segmenters.Segmenter.Destroy | src/Segmenter.cpp:28-30 | Destruction is one more flush. |
| StreamCaches.StreamCache.GetByJobId | src/StreamCache.cpp:57-71 | A hit refreshes the record and returns its stream; a miss changes nothing. |
| StreamCaches.StreamCache.GetBySegment | src/StreamCache.cpp:34-54 | A hit refreshes; a miss makes a new stream for the job. |
| StreamCaches.StreamCache.ExpireEntries | src/StreamCache.cpp:73-88 | A sweep removes only entries expired by its end, changes no other, and if completed leaves none that had expired when it began: it is one of the sweeps the results on streams quantify over. |
| StreamCaches.SameStream | src/StreamCache.cpp:34-88 | A job whose accesses are at most the time to live apart is always given the stream it has, through any interleaving of sweeps and other jobs. |
| StreamCaches.JobKeepsStream | src/StreamCache.cpp:34-71 | From the access that found or made it, a job keeps its stream on the same terms. |
| StreamCaches.SweptOnlyWhenIdle | src/StreamCache.cpp:77-84 | Every entry any sweep removes has not been accessed for longer than the time to live. |
| Unpacking.Conservation | src/SegmentUnpacker.cpp:77-119 | For any number of workers and any interleaving, each received segment is exactly once queued, in a hand or unpacked. |
| Unpacking.CloseDrains | src/SegmentUnpacker.cpp:44-57 | When close has returned, everything received has been unpacked, once. |
| Finishing.CloseCanReturnExactly | src/SegmentUnpacker.cpp:44-57 | In every reachable state of any number of workers closing can still be completed, if and only if there is a worker or nothing is queued. |
| SingleWorker.InOrder | src/SegmentUnpacker.cpp:89-119 | With one worker arrival order is kept, the popped segment is never null, and packets are forwarded in order, each on a stream of its own job. |
| SingleWorker.SetUpExactlyOnce | src/SegmentUnpacker.cpp:109-114 | With one worker every stream the cache makes is set up once, in order of creation and before its first packet, also after expiry and re-creation. |
| SingleWorker.EmptyHandedExactly | src/SegmentUnpacker.cpp:91-104 | A worker can hold a null segment if and only if there are two or more workers. |
| SingleWorker.SetUpProperlyExactly | src/SegmentUnpacker.cpp:109-114 | No stream is set up twice, and none gets packets before, in every run if and only if there is at most one worker. |
| SingleWorker.UnpackWhole | src/SegmentUnpacker.cpp:109-119 | A worker left alone has, in its separate steps, the effect of one uninterrupted unpack. |
| SingleWorker.RecreatedAfterExpiry | src/SegmentUnpacker.cpp:109-119 | When the stream of a job has expired, its next segment is given a new one, set up before the first packet. |
| Unpackers.SegmentUnpacker.Receive | src/SegmentUnpacker.cpp:72-87 | The segment the bytes stand for is queued last; bytes that do not load queue nothing. |
| Unpackers.SegmentUnpacker.Take | src/SegmentUnpacker.cpp:94-101 | The oldest segment under the lock, or null. |
| Unpackers.SegmentUnpacker.Unpack | src/SegmentUnpacker.cpp:109-119 | Finds or makes and sets up the stream, then forwards every packet in order. |
| Unpackers.SegmentUnpacker.DoSomeWork | src/SegmentUnpacker.cpp:89-107 | After shutdown the queue is emptied, each segment unpacked as by `Unpack`, first to last, and every packet forwarded for its job, in order. |
| EndToEnd.ReceivedIsSent | src/SegmentUnpacker.cpp:72-87 | What was saved on the wire is, in order, what the unpacker received. |
| EndToEnd.PublishedSegments | src/Segmenter.cpp:28-75 | Every segment a sound job publishes survives the wire, and together they are its packets and the repeats of further flushes. |
| EndToEnd.Delivery | src/SegmentUnpacker.cpp:72-119 | Whole way, many jobs, any interleaving that keeps each job's order: after close a job's packets come out as they went in, followed by one copy of the last segment per extra flush. |
| EndToEnd.DeliveryIsExact | src/SegmentUnpacker.cpp:44-119 | What comes out per job is what went in if and only if the segmenter was flushed once. |
| Finishing.DeliveryHappens | src/SegmentUnpacker.cpp:72-107 | Whatever segments are on the wire, some run receives them all and closes: the runs that `EndToEnd.Delivery` speaks of exist. |
| Muxing.FlushWritesAll | src/Muxer.cpp:129-153 | A flush writes the whole buffer in order, after a header if none was written. |
| Muxing.CloseIdempotent | src/Muxer.cpp:106-123 | Closing twice is closing once. |
| Muxing.OutputGrammar | src/Muxer.cpp:58-144 | Over any sequence of subscribe, open, process, flush and close the output is a repetition of Open, optionally Header Packet+ Flush Trailer, then Close; one repetition for each opening that succeeded, holding the packets given in it, in order; the stream set is frozen from header to close and every packet's index was announced. |
| Muxing.CloseEnds | src/Muxer.cpp:106-123 | After any run and a close the output is not open, the buffer is empty, the trace is that of whole sessions, and the last one carries every packet given since its opening. |
| MuxerRuns.BufferExactly | src/Muxer.cpp:146-176 | After any sequence of operations written followed by buffered is what was given, stamped with its stream index and otherwise unchanged; the buffer is exactly the newest bufferMax packets since the last flush or close; a negative bufferMax keeps them all. |
| MuxerRuns.StreamsCounted | src/Muxer.cpp:58-76 | The number of streams, which is the next index, counts the subscriptions that found no header without a trailer; a subscription is refused exactly when there is one. |
| Muxing.OnlyWhileOpen | src/Muxer.cpp:129-176 | A packet and a flush keep to that grammar if and only if the output is open. |
| Muxers.Muxer.constructor | src/Muxer.cpp:24-46 | The new muxer is open, or failed if the file cannot be opened. |
| Muxers.Muxer.Subscribe | src/Muxer.cpp:58-76 | Gives out the next stream index before the header, and is refused without effect after it. |
| Muxers.Muxer.OpenFor | src/Muxer.cpp:89-104 | Opens the file unless it is open already or the format has none. |
| Muxers.Muxer.Close | src/Muxer.cpp:106-123 | New state and trace are those of `Muxing.Close`: flushed, and an open output ended with flush and trailer if there was a header, then closed; `Muxing.CloseEnds` says what that amounts to over runs. |
| Muxers.Muxer.WriteOut | src/Muxer.cpp:129-144 | Writes the packet, behind the header if it is the first. |
| Muxers.Muxer.Flush | src/Muxer.cpp:146-153 | The loop writes everything buffered and leaves the buffer empty. |
| Muxers.Muxer.Process | src/Muxer.cpp:155-176 | New state and trace are those of `Muxing.Process`: stored under the output stream's index, a full buffer writing its oldest packet; `MuxerRuns.BufferExactly` says what that amounts to over runs. |
| Muxers.StreamInfo.Process | include/fr/media2/Muxer.h:68-86 | A packet of a subscribed stream reaches its own muxer under its own index. |
| MuxerThreads.BufferBound | src/Muxer.cpp:164-175 | With T producers checking the size outside the lock the buffer never exceeds bufferMax + T - 1, and bufferMax for one. |
| MuxerThreads.BoundReached | src/Muxer.cpp:164-175 | For every limit and T some run attains that bound. |
| MuxerThreads.UndisturbedIsProcess | src/Muxer.cpp:164-175 | A thread left alone between reading the size and taking the lock does exactly what the muxer of one thread does. |
| MuxerThreads.FirstInFirstOut | src/Muxer.cpp:146-176 | Under any interleaving of producers and flushes, written followed by buffered is what was accepted, in lock order. |
| MuxerThreads.StreamOrder | src/Muxer.cpp:146-176 | What is written for a stream is a prefix of its producer's input, and all of it once the producer is done and the buffer flushed. |
| MuxerThreads.StreamFlushed | src/Muxer.cpp:146-153 | Once a producer has finished, after a flush all of its input has been written for its stream. |
| Registries.JobRegistry.Add | demos/router/src/JobRegistry.cpp:43-56 | The job is found by its id and by each of its streams, nothing else is touched, and in the one state visible in between it is found by its id only. |
| Registries.JobRegistry.AddJob | demos/router/src/JobRegistry.cpp:44-49 | The first critical section: the job is found by its id, streams are untouched. |
| Registries.JobRegistry.AddStreams | demos/router/src/JobRegistry.cpp:50-55 | The second: every stream of the job, and no other, now leads to it. |
| Registries.JobRegistry.ByJobId | demos/router/src/JobRegistry.cpp:62-69 | The job registered under the id, or null. |
| Registries.JobRegistry.ByStreamId | demos/router/src/JobRegistry.cpp:71-78 | The job registered for the stream, or null. |
| Routers.DrawingShrinks | demos/router/src/RouterJobHandler.cpp:74-82 | Each id drawn in vain uses up one of the taken names that the generator can still produce. |
| Routers.SettledDistinctExactly | demos/router/src/RouterJobHandler.cpp:70-83 | Unless a request names ids still to be generated, the stream ids it ends up with differ from each other if and only if the unregistered ones among those it proposed do. |
| Routers.RouterJobHandler.UnusedJobId | demos/router/src/RouterJobHandler.cpp:58-64 | Terminates with the first generated name that does not exist, all up to it being used up; keeps a name that did not exist; counts the tests made. |
| Routers.RouterJobHandler.UnusedStreamId | demos/router/src/RouterJobHandler.cpp:70-83 | Ends with the proposed id if unregistered, else with the first generated id that is, all up to it being used up, within (registered ids) + 1 lookups, one more only if the proposed id is itself still to be generated. |
| Routers.RouterJobHandler.PlaceStreams | demos/router/src/RouterJobHandler.cpp:70-87 | Registered stream ids are replaced, each by an id of its own, all others kept, and each gets a directory in the job's; the ids are distinct exactly if the kept ones are. |
| Routers.RouterJobHandler.HandleRequest | demos/router/src/RouterJobHandler.cpp:48-104 | One request: unused ids chosen and none handed out twice, directories and metadata made in the temp root, the job registered. |
| Routers.TakesOverExactly | demos/router/src/RouterJobHandler.cpp:58-69 | A request takes a registered job id if and only if it has the empty id and that is registered. |
| Routers.RegistrationSafeExactly | demos/router/src/RouterJobHandler.cpp:58-100 | A request changes no earlier answer if and only if it has a job id, or is the first without one, or repeats the job registered without one; then the indexes also agree. |
| Routers.EmptyIdRebinds | demos/router/src/RouterJobHandler.cpp:58-63 | Two requests without job ids after which an id has changed its job and the indexes disagree. |
| Archiving.RegistryOnlyGrows | demos/router/src/JobRegistry.cpp:43-78 | In every run, also between the two critical sections of a registration, a job found by stream is found by id, and no answer once given ever changes. |
| Archiving.CacheStaysCoherent | demos/storage/src/Storage.cpp:100-111 | In every run each segment reaching storage is of a registered stream, and each cached answer is the registry's answer then and ever after. |
| Histories.PublishedExactly | demos/router/src/main.cpp:89-98 | In every run a segment has been let through if and only if it arrived at a moment at which its stream was registered. |
| Histories.DeliveredExactly | demos/storage/src/Storage.cpp:63-73 | Storage has been handed exactly the deliveries of the run, in order. |
| Histories.PromisedExactly | demos/router/src/JobRegistry.cpp:43-56 | The streams registered, or about to be indexed, are exactly those of the jobs settled on. |
| Histories.AskedOnce | demos/storage/src/Storage.cpp:100-111 | Over any run of any number of workers the registry is asked at most once for a stream, exactly once for each one cached, and never by two workers at a time. |
| Histories.RegisteredHavePlaces | demos/router/src/RouterJobHandler.cpp:65-95 | In every run each registered job has its directory with its metadata, and each registered stream its directory in that of its job. |
| Histories.FilesHavePlaces | demos/storage/src/Storage.cpp:148-153 | Storage writes only into directories that the router's job handler has made. |
| Storages.Storage.Add | demos/storage/src/Storage.cpp:63-73 | The task goes to the end of the pool and work is announced. |
| Storages.Storage.Shutdown | demos/storage/src/Storage.cpp:43-49 | The request is noted and no task is dropped. |
| Storages.Storage.QueryJob | demos/storage/src/Storage.cpp:100-111 | The cached job, or else the registry's, which is then cached. |
| Storages.Storage.Process | demos/storage/src/Storage.cpp:121-163 | The worker's loop handles the whole pool, first to last, or ends in the exception of the first segment that does not load; under shutdown it finishes the pool first. |
| Storages.HandlesAllExactly | demos/storage/src/Storage.cpp:126-154 | The pool is worked off without an exception if and only if every segment is for no job or loads. |
| Storages.FilesExactly | demos/storage/src/Storage.cpp:140-154 | After that a file holds the last segment with its job, stream and decoding time, and other files are unchanged. |
| Storages.CacheExactly | demos/storage/src/Storage.cpp:100-111 | The cache has grown by exactly the streams handled, each with the answer first given. |
| Storages.OrderDoesNotMatter | demos/storage/src/Storage.cpp:121-163 | The disk depends neither on the order of the tasks nor on how often each occurs, as long as different segments have different files. |
| Storages.WorkerIsARun | demos/storage/src/Storage.cpp:121-163 | What the worker's loop computes is a state that the protocol reaches by its single steps. |
| Storages.AskedTooEarlyExactly | demos/router/src/main.cpp:89-98 | Why the router gates: a later segment of a stream goes to the registry's place for it if and only if the stream was registered when storage first asked. |
| Filing.EverythingIsFiled | demos/storage/src/Storage.cpp:121-163 | In every run each delivered segment is waiting, in a hand or stored where its registered job says, and each file holds such a segment. |
| Filing.OnDisk | demos/storage/src/Storage.cpp:148-153 | The files named after the segments up to the first flush are all the files of the stream. |
| Filing.FirstRound | src/Segmenter.cpp:28-75 | The segments up to the first flush have ascending times, concatenate to the stream, and are, as a set, all that any number of flushes sends. |
| Filing.Reassembly | demos/storage/src/Storage.cpp:121-163 | For any reordering and duplication of a stream's segments and any interleaving of workers, sorting its files by decoding time and taking the packets out gives the original packets. |
| Storing.StreamCanBeStoredExactly | demos/storage/src/Storage.cpp:121-163 | From any point of any run at which a stream is registered, all its segments can still be let through, delivered and stored with nothing left waiting, if and only if storage has a worker. |
| Storing.ReassemblyHappens | demos/storage/src/Storage.cpp:121-163 | For any request with an unused job id and any stream of it there are runs that meet the conditions of `Filing.Reassembly`, and give the original packets. |
| Filing.SameHomeExactly | demos/storage/src/Storage.cpp:148-153 | Two segments fall on one file if and only if they are of one stream and have equal decoding times. |
| Text.ToStringInjective | demos/storage/src/Storage.cpp:149-150 | Different decoding times print differently. |
| Text.ToStringExactly | demos/storage/src/Storage.cpp:149-150 | What is printed is the one decimal numeral of the integer, without leading zeros, behind a minus sign if negative. |
| Text.UnparseInjective | demos/storage/src/Storage.cpp:75-79 | Different identifiers print differently. |
| Text.UnparseExactly | demos/storage/src/Storage.cpp:75-79 | 36 characters, dashes in the usual places, each byte as two lower-case hexadecimal digits, high half first. |

## Left out

- FFmpeg: encoding, decoding, scaling, resampling and frames. `av_packet_ref` is a value copy, `avformat_new_stream` hands out the next index, and calls on the output context are entries of a trace.
- ZeroMQ and JSON: sockets are channels. `EndToEnd` takes each job's segments to arrive once and in order, `Filing` at least once and in any order.
- Boost archive headers, class versions and array counts: the archive is the plain concatenation of little-endian fixed-width fields, `size_t` and side-data sizes of eight bytes.
- `PacketReader`, its state table and its pauses; the Python bindings, the command line and the environment handling of the demos.
- Exceptions from failed writes, a header that cannot be written included; `copyTimingData`, whose exceptions the muxer ignores; memory ownership, and freeing of extradata.
- Liveness: that waiting storage workers and the unpacker's sleeping threads do wake up. `Finishing` and `Storing` prove only that closing and storing can still be completed.
- How identifiers are generated: a generator is a sequence of non-empty strings without repetition.
- Directories are taken to be created and to persist, and job and stream ids to be plain names; ids with path separators are not modelled.
- Sharing of objects through pointers: a subscriber that keeps a segment the segmenter flushed would see packets appended to it later, and `Muxer::process` writes the stream index into a packet that other subscribers may hold.
- Closing a muxer while producers are still at work, and several unpackers on one cache.
- A flush of a segmenter that never had a packet sends a null segment; what subscribers do with it is not modelled.
- The number of entries after which shutdown stops a sweep is a parameter, and erasing during the iteration is modelled by what it is meant to do.
- Segmenters.Segmenter.Process: requires a stream once a segment is open, because the source dereferences the pointer there; `currentFrames` does not wrap around, which only a video segment of 2^64 packets could make it do, and for video the counter is not used.
- Segments.Segment.Load: says nothing about the fields of a target whose load failed half-way, which stay partly changed; a packet count beyond the int loop index is an archive error.
- Unpackers.SegmentUnpacker.DoSomeWork: covers the loop after shutdown without another worker; runs of several workers and of the waiting loop are those of `Unpacking`.
- SingleWorker.EmptyHandedExactly: with several workers the null segment is skipped, where the code would dereference it.
- Splitting.OutcomeExactly: a first packet without any stream object counts as one without parameters, as in the source; what a subscriber of the signal throws is not modelled.
- Routers.SettledDistinctExactly: a request that names the same unregistered stream id twice keeps it twice, as the source does.
- Muxers.Muxer.Subscribe: does not copy codec, time base and frame rate, and requires fewer than 2^31 streams, the range of the index.
- Muxers.Muxer.constructor: leaves out the choice of the output format.
- Routers.RouterJobHandler.UnusedStreamId: the bound of (registered ids) + 1 lookups is proved unless the proposed id is one the generator has yet to produce; then it is one more.
- Storages.Storage.Process: one worker between two waits with a registry that does not change meanwhile; any number of workers and a changing registry are those of `Archiving`.
- Storages.Storage.QueryJob: the service always answers, with an empty job if need be, so the loop that asks again after a null answer is not modelled.
- Filing.Reassembly: a file is written in one step, where the code opens it and then writes.
