# Verified models of the PLANK media probes, wire formats and packaging tools

This project holds Dafny models of the parts of PLANK whose correctness is not
obvious from one function's body: two-thread frame pipelines, a lock-free clock
snapshot, bitstream splitting and recording, byte-level validators, stream framing
and record codecs, and three data transformations. `dafny verify dfyconfig.toml`
checks everything.

- `Transitions` has runs, reachability and the two induction principles (invariants,
  and bounds on the length of a run), and traces, which name the action behind every
  step, so that a theorem can speak of what was done in a run. `Wrappers` has the option
  and result types, `Bytes` byte order, and readable and writable descriptors that
  deliver or accept data in arbitrary pieces, up to the point where they fail.
- `VideoPipeline`, `EncoderRing`, `Presentation` and `ClockSnapshot` model threads. Every
  critical section, system or library call and atomic access is one step; a wait on a
  condition variable is a step that is not enabled until its predicate holds; a call
  that may fail does so at will. The theorems are about every reachable state or every run,
  for any number of frames. Each module ends with a class that holds the shared
  variables of the program; its methods change them in place, one step per call, and are
  proved to be the steps of the transition system.
- `ToneSource` is the tick handler that keeps blocks ahead of the clock; `Pacing` is the
  input pacing on an absolute clock and the matching of decoder outputs to inputs.
- `AnnexB`, `Recorder` and `Clip` are the access-unit splitter, the writers of samples and
  of recordings, and the reader of both.
- `ClipboardText` is the UTF-8 validator and the chunk header, `Bridge` the raw-HID framing
  and its descriptor hand-shake. `Codecs.dfy` has the Rust codecs of microphone
  and camera records, `CameraHeaders.dfy` the C ones.
- `Planes` is the channel arithmetic and the row-parallel plane unpacking, `Policy` the
  updater that may only add missing keys, `Collector` the package collector with crashes.

Two results are about properties the code has only in part; each has the exact condition
and inputs on which the property fails. The clipboard decoder accepts records no encoder
writes, a text's first chunk without the FIRST flag (`ClipboardText.AcceptedChunkIsCanonical`,
`ClipboardText.UnflaggedFirstChunk`). The bridge receiver does not look at the reserved field
(`Bridge.ReceivedIsSentIfReservedIsZero`, `Bridge.ReservedFrame`).

Three results show what keeps a weakness out of reach. The wake-up time of the pacing
is a 64-bit difference that would wrap if the lead exceeded the target (`Pacing.Underflow`,
`Pacing.EpochUnderflow`); with arguments the probe accepts it does not in any run, because the
first epoch lies 120 periods behind its event and the steady epoch behind a frame that slept
(`Pacing.AcceptedArgumentsNeverWrap`). A camera queue record that combines a v2 format with a
device sequence would lose the sequence (`CameraRecord.SurvivesTheWire`), but records are only
made from packets, and such a record survives (`CameraRecord.NativeSurvives`,
`CameraRecord.EncodedSurvives`). Loss recovery needs exactly the delay that main checks
(`VideoPipeline.RecoveryNeedsTheDelay`).

## Model

| member | source | states |
|---|---|---|
| `VideoPipeline.Exclusion` | probes/video/plank-probe-video-pipeline.cpp:1101-1256 | in every interleaving, from the moment the producer has its slot until it hands it over, the worker neither holds that slot nor has it in its queue |
| `VideoPipeline.DeliveryOrder` | probes/video/plank-probe-video-pipeline.cpp:1022-1260 | frames are drained in submission order, each exactly once; the bitstream file holds the frames so far without the one whose loss is simulated |
| `VideoPipeline.Outcome` | probes/video/plank-probe-video-pipeline.cpp:1261-1282 | the producer returns success exactly when no external call failed in either thread (so a worker exception always reaches it); then written + dropped is the frame count, and one frame is dropped exactly when a loss was requested |
| `VideoPipeline.SuccessMeansNoCallFailed` | probes/video/plank-probe-video-pipeline.cpp:1133-1282 | judged by the calls made in a whole run: the producer returns success exactly when every capture, encode, invalidation, write and drain call succeeded, with all frames through; every submitted frame is drained even after a failure, unless it was the worker that failed |
| `VideoPipeline.ErrorStopsProducer` | probes/video/plank-probe-video-pipeline.cpp:1141-1149 | after an error of the worker the producer begins no frame besides the one it is at |
| `VideoPipeline.Progress` | probes/video/plank-probe-video-pipeline.cpp:1104-1149 | no deadlock: until the producer has returned some thread can take a step in which no call fails |
| `VideoPipeline.Termination` | probes/video/plank-probe-video-pipeline.cpp:1101-1282 | every interleaving ends within 12 steps per frame plus a constant |
| `VideoPipeline.LateRecoveryIsSafe` | probes/video/plank-probe-video-pipeline.cpp:1141-1156 | with at least depth + 1 feedback frames, a step that invalidates the lost frame starts only after that frame has been drained |
| `VideoPipeline.EarlyRecovery` | probes/video/plank-probe-video-pipeline.cpp:1141-1156 | with fewer feedback frames there is a reachable state and a step from it that invalidates a frame not yet drained |
| `VideoPipeline.RecoveryNeedsTheDelay` | probes/video/plank-probe-video-pipeline.cpp:1141-1156 | invalidation waits for the drain in every run if and only if the delay is at least depth + 1 |
| `VideoPipeline.AcceptedArgumentsRecoverSafely` | probes/video/plank-probe-video-pipeline.cpp:926-946 | the argument checks of main admit only configurations in which invalidation waits for the drain |
| `VideoPipeline.InvalidatedOnce` | probes/video/plank-probe-video-pipeline.cpp:1150-1156 | over a whole run references are invalidated at most once, only if a loss is simulated and invalidation is enabled, immediately before frame loss + delay, and the flag says exactly whether that call succeeded |
| `VideoPipeline.InvalidatedIfRequested` | probes/video/plank-probe-video-pipeline.cpp:1341-1344 | a successful run with accepted arguments has invalidated exactly if it was asked to |
| `VideoPipeline.InvalidatedAfterDrain` | probes/video/plank-probe-video-pipeline.cpp:1150-1156 | with a delay beyond the depth, whenever the flag is set the lost frame has been drained and the frame that comes the delay after it has been reached |
| `VideoPipeline.Pipeline.WriteSlot` | probes/video/plank-probe-video-pipeline.cpp:1040-1052 | the drain writes every picture but the lost one and counts both kinds |
| `VideoPipeline.Pipeline.ProducerAction` | probes/video/plank-probe-video-pipeline.cpp:1133-1282 | the producer's critical sections and calls, in place, are the producer steps of the state machine |
| `VideoPipeline.Pipeline.WorkerAction` | probes/video/plank-probe-video-pipeline.cpp:1101-1130 | the worker's critical sections and calls, in place, are the worker steps of the state machine |
| `EncoderRing.Preload` | probes/video/plank-benchmark-x264.cpp:214-223 | preload mode fills the buffer with the first frames of the input, and fails exactly on a short input |
| `EncoderRing.PreloadedAt` | probes/video/plank-benchmark-x264.cpp:331-332 | frame k in preload mode is the k-th stretch of the input |
| `EncoderRing.RefinesPreload` | probes/video/plank-benchmark-x264.cpp:291-392 | in every interleaving the encoder has been given exactly the first frames of preload mode, byte for byte and in index order; success means all of them, that preload mode would have had enough input, and that nothing failed |
| `EncoderRing.SuccessMeansNoCallFailed` | probes/video/plank-benchmark-x264.cpp:92-109 | judged by the calls made in a whole run: it succeeds, with every frame encoded, exactly when no read inside a frame brought nothing and no encoder call failed; a read that brings only part of the frame is no failure, and until a call fails neither side is stopped |
| `EncoderRing.ErrorStopsEncoder` | probes/video/plank-benchmark-x264.cpp:334-341 | after an error of the reader the encoder is given no frame besides the one it is at, even if there are some in the ring |
| `EncoderRing.NoOverwrite` | probes/video/plank-benchmark-x264.cpp:297-317 | while the encoder owns a slot, no reader step changes its bytes or takes it back |
| `EncoderRing.Progress` | probes/video/plank-benchmark-x264.cpp:297-343 | neither side can wait for ever: until the encoder side is done some step is enabled, and one without a failing call if the input is long enough |
| `EncoderRing.WaitsExactly` | probes/video/plank-benchmark-x264.cpp:297-343 | the reader waits exactly while three frames ahead are still needed, the encoder exactly while there is no frame and no reader error |
| `EncoderRing.Termination` | probes/video/plank-benchmark-x264.cpp:291-392 | every interleaving ends, within a bound in frames and frame size |
| `EncoderRing.Benchmark.ReaderAction` | probes/video/plank-benchmark-x264.cpp:293-324 | the reader thread's steps on the shared ring, in place |
| `EncoderRing.Benchmark.EncoderAction` | probes/video/plank-benchmark-x264.cpp:328-392 | the encoder loop's steps on the shared ring, in place |
| `Bytes.Source.ReadExact` | probes/video/plank-benchmark-x264.cpp:92-109 | whatever the fragmentation, exactly the wanted bytes arrive at their place, or the input was short and everything there was has been stored |
| `Presentation.Conservation` | probes/video/plank-probe-client-pipeline.cpp:773-911 | every queued frame is in exactly one place and the counters count the places: queued = presented + stale + in flight + hand-off + being processed + lost, and nothing is lost while nothing has failed |
| `Presentation.InFlightBounded` | probes/video/plank-probe-client-pipeline.cpp:806-812 | never more frames in flight than the accepted limit; none in the synchronous mode |
| `Presentation.HandOffOrder` | probes/video/plank-probe-client-pipeline.cpp:773-790 | the one-place hand-off delivers the frames in order, none skipped and none twice |
| `Presentation.Drained` | probes/video/plank-probe-client-pipeline.cpp:854-911 | a run that ends with the stream and without failure has queued = presented + stale; the frame count of the final gate is reached exactly when everything was queued and nothing was stale |
| `Presentation.LossFails` | probes/video/plank-probe-client-pipeline.cpp:338-344 | a frame that was discarded, could not be rendered or was dropped at a stop makes the run a failure |
| `Presentation.FailedExactly` | probes/video/plank-probe-client-pipeline.cpp:320-344 | over a whole run: it has failed exactly if a sample had no stamp, an input's sleep failed, a report was discarded or not recorded, or presenting or dispatching met an error; the worker is stopped exactly by an error of its own, by the pipeline ending before the stream, or by finding the run failed after submitting a frame |
| `Presentation.SmoothRunPasses` | probes/video/plank-probe-client-pipeline.cpp:773-911 | a run in which none of that happens, nothing is late and the stream is long enough presents all expected frames without failure, however the threads take turns |
| `Presentation.OneMoreFrame` | probes/video/plank-probe-client-pipeline.cpp:803-911 | in the asynchronous modes at most one frame is submitted after a failure in any thread |
| `Presentation.NothingAfterStop` | probes/video/plank-probe-client-pipeline.cpp:773-890 | once the worker is stopped no frame is queued and none is taken any more |
| `Presentation.LimitReached` | probes/video/plank-probe-client-pipeline.cpp:806-812 | the accepted number of frames can indeed be in flight at once |
| `Presentation.Progress` | probes/video/plank-probe-client-pipeline.cpp:773-911 | until main is done some thread can move without anything failing, provided the compositor reports on frames in flight |
| `Presentation.Termination` | probes/video/plank-probe-client-pipeline.cpp:864-911 | every run ends, within ten steps per expected frame, one per input that may fail before it is decoded, and a constant |
| `Presentation.Client.OnNewSample` | probes/video/plank-probe-client-pipeline.cpp:756-790 | the decoder's thread, in place |
| `Presentation.Client.OnReport` | probes/video/plank-probe-client-pipeline.cpp:320-344 | the two feedback callbacks, in place |
| `Presentation.Client.OnInputFailed` | probes/video/plank-probe-client-pipeline.cpp:725-735 | an input whose sleep fails: the frame is dropped before the decoder and the run has failed, in place |
| `Presentation.Client.TakeSample` | probes/video/plank-probe-client-pipeline.cpp:869-894 | the worker's critical section, in place |
| `Presentation.Client.PresentationWorker` | probes/video/plank-probe-client-pipeline.cpp:803-911 | the worker with its throttle, stale check, presentation and final drain, in place |
| `Presentation.Client.MainThread` | probes/video/plank-probe-client-pipeline.cpp:1032-1058 | the end of main, in place: flags, then join |
| `ClockSnapshot.NoTornSnapshot` | probes/macos/microphone-xpc-source.c:82-86 | one lock-free read accepts exactly when no publication began or ended during it (unless the 64-bit counter went round in between), and then holds the last published triple |
| `ClockSnapshot.AcceptedSnapshots` | probes/macos/microphone-xpc-source.c:82-86 | every snapshot ever accepted is one single publication's (anchor, seed, running), and later ones never come from earlier publications |
| `ClockSnapshot.PublishesTheDriver` | probes/macos/microphone-xpc-driver.c:54-62 | publication k consists of the anchor, seed and running flag the driver held at its three stores, and there is one publication for every five steps |
| `ClockSnapshot.AcceptsTheDriver` | probes/macos/microphone-xpc-source.c:82-86 | so every snapshot the reader accepts is the initial one or the driver's, in all three fields |
| `ClockSnapshot.ReadAfterPublish` | probes/macos/microphone-xpc-source.c:82-86 | a publication followed by a read: the reader accepts exactly the driver's clock |
| `ClockSnapshot.ReadsAreBounded` | probes/macos/microphone-xpc-source.c:82-86 | a read takes one load if refused at once and five if not, whatever the publisher does |
| `ClockSnapshot.SharedClock.PublisherAccess` | probes/macos/microphone-xpc-driver.c:54-62 | the publisher's five atomic stores, in place, one per call |
| `ClockSnapshot.SharedClock.ReaderAccess` | probes/macos/microphone-xpc-source.c:82-86 | the reader's five atomic loads, in place, one per call |
| `ToneSource.LiveTick` | probes/macos/microphone-xpc-source.c:91-110 | a live tick ends with nextFrame a multiple of 480 in [frame + 1440, frame + 2400], tighter when the clock did not go back, and needs at most three blocks, so the cap of four never binds |
| `ToneSource.LeadHolds` | probes/macos/microphone-xpc-source.c:91-110 | the same lead after any sequence of ticks; at most frame + 1919 while the clock does not go backwards under one seed |
| `ToneSource.NoNeedlessResync` | probes/macos/microphone-xpc-source.c:92-99 | no resynchronisation while the clock moves at most 1440 frames between live ticks under one seed |
| `ToneSource.ResyncBeyondTheLead` | probes/macos/microphone-xpc-source.c:92-99 | 1441 frames can cost one: the bound is the best possible |
| `ToneSource.ResyncExactly` | probes/macos/microphone-xpc-source.c:92-99 | resynchronisations are counted exactly, and a clock that outran lead and limit always causes one |
| `ToneSource.GateIsSound` | probes/macos/microphone-xpc-source.c:90-110 | over every run blocks tile [reset, nextFrame), the buffer is reset only under a closed deadline, and a deadline opens only over a buffer whose seed is announced |
| `ToneSource.SoundThroughout` | probes/macos/microphone-xpc-source.c:90-110 | and so it was at every earlier moment of the run |
| `ToneSource.OpensOverTheLead` | probes/macos/microphone-xpc-source.c:91-110 | a live tick opens the deadline once and last, when the clock's seed is announced and the buffer reaches the whole lead beyond the clock, from the clock's next block on unless the clock went back |
| `ToneSource.OpenExactly` | probes/macos/microphone-xpc-source.c:90-110 | after any ticks the deadline is open exactly if the last one was live with a lease; a tick with a stopped clock does nothing but close it |
| `ToneSource.Source.OnTick` | probes/macos/microphone-xpc-source.c:90-111 | the timer handler, in place, has the effect of one tick |
| `AnnexB.FindStarts` | probes/video/plank-probe-vaapi-decode.cpp:48-64 | the scanning loop finds exactly the start codes of delimiters, or reports too many |
| `AnnexB.AccessUnits` | probes/video/plank-probe-vaapi-decode.cpp:48-72 | the whole splitter, loop by loop, is Split |
| `AnnexB.SplitTiles` | probes/video/plank-probe-vaapi-decode.cpp:65-71 | on success the units are non-empty, contiguous and cover the whole clip, every one but the first starting where the scan found a delimiter |
| `AnnexB.ScanFindsCodedAuds` | probes/video/plank-probe-vaapi-decode.cpp:51-64 | self-synchronisation: in a byte stream of well-formed NAL units, with start codes of three or four bytes and any zero bytes before and behind, the scan finds exactly the access-unit delimiters |
| `AnnexB.AudHeader` | probes/video/plank-probe-vaapi-decode.cpp:58-58 | a delimiter is recognised by type 35 in bits 1 to 6 of its first byte |
| `AnnexB.ScanFindsAuds` | probes/video/plank-probe-vaapi-decode.cpp:51-64 | with the four-byte start codes of the writer the scan finds exactly the access-unit delimiters |
| `AnnexB.SplitRecoversSamples` | probes/video/plank-probe-vaapi-decode.cpp:48-72 | splitting parameter sets and samples gives one unit per sample, the parameter sets in the first; it succeeds exactly for 1 to 1,000,000 samples |
| `AnnexB.WriteParameters` | probes/macos/annexb-sample.h:18-27 | the parameter sets are appended in start-code form |
| `AnnexB.WriteUnits` | probes/macos/annexb-sample.h:34-45 | the loop over length-prefixed units accepts and writes what Convert says |
| `AnnexB.WriteSample` | probes/macos/annexb-sample.h:7-46 | one sample: what is written and when it fails |
| `AnnexB.WriteSamples` | probes/macos/hardware-encode.m:116-136 | the output loop over the samples: it succeeds exactly when every buffer converts, and then the file has gained the parameter sets once and all converted buffers in order |
| `AnnexB.ConversionIsExact` | probes/macos/annexb-sample.h:34-45 | a buffer converts to these NAL units if and only if it is their length-prefixed form |
| `AnnexB.WriterThenSplitter` | probes/macos/annexb-sample.h:34-45 | what that loop writes for sample buffers within the writer's limits (64 MiB each, eight parameter sets) comes back from the splitter one access unit per sample |
| `Recorder.FilesAreLifetimes` | probes/video/plank-probe-video-record.c:79-152 | while recording, for every interleaving of packets and frees, each file is the magic and exactly one decoder lifetime's packets in order, and `written` is the size of all files, at most 4 GiB |
| `Recorder.FilesAreBeginnings` | probes/video/plank-probe-video-record.c:55-122 | whatever fails and whenever, no file ever holds anything but a beginning of its own lifetime |
| `Recorder.Lifetimes` | probes/video/plank-probe-video-record.c:138-152 | what a lifetime is, independently of the table: the packets of one context from its first packet up to its next free |
| `Recorder.TableFull` | probes/video/plank-probe-video-record.c:91-96 | no free entry is left exactly when eight contexts are alive |
| `Recorder.StopsExactly` | probes/video/plank-probe-video-record.c:82-118 | recording stops if and only if time is up, the shared budget is short, a ninth context appears, or the file system refuses the file or some byte |
| `Recorder.AddsWhatFits` | probes/video/plank-probe-video-record.c:79-122 | a packet adds its record, behind the magic if it is the first of its lifetime, to its own file and as far as the file system accepts it, or nothing at all if recording ends for any other reason |
| `Recorder.FilesGrow` | probes/video/plank-probe-video-record.c:79-122 | no call takes a byte from a file, a free changes none, and nothing is written once recording has stopped |
| `Recorder.Descriptors` | probes/video/plank-probe-video-record.c:55-64 | while recording exactly the files of the live contexts are open, and none once recording has stopped |
| `Recorder.Library.StopRecording` | probes/video/plank-probe-video-record.c:55-64 | closes every entry, in place |
| `Recorder.Library.RecordPacket` | probes/video/plank-probe-video-record.c:79-122 | record_packet, in place |
| `Recorder.Library.AppendPacket` | probes/video/plank-probe-video-record.c:107-119 | header and payload in two writes, in place |
| `Recorder.Library.FreeContext` | probes/video/plank-probe-video-record.c:138-152 | avcodec_free_context, in place |
| `Clip.RecordingsAreExactlyFiles` | probes/video/plank-probe-vaapi-decode.cpp:82-118 | the indexer and the recorder are inverse: a file is accepted as a recording of these packets if and only if it is the magic and their rendering, 1 to 1,000,000 of them and at most 4 GiB |
| `Clip.RecordedLifetimesReplay` | probes/video/plank-probe-vaapi-decode.cpp:82-133 | every file of a recorder that has not stopped, with at most 1,000,000 packets, is accepted and gives back its lifetime's lengths, flags and bytes |
| `Clip.OtherClips` | probes/video/plank-probe-vaapi-decode.cpp:82-98 | what is no recording is accepted exactly if it has 8 bytes to 256 MiB and the scan finds 1 to 1,000,000 delimiters; its packets have no flags, none is empty, and put together they are the file |
| `Clip.SamplesArePackets` | probes/video/plank-probe-vaapi-decode.cpp:48-98 | an Annex B clip of parameter sets and samples gives one packet per sample, the parameter sets in front of the first |
| `Clip.Reader.Load` | probes/video/plank-probe-vaapi-decode.cpp:82-118 | the constructor succeeds exactly on acceptable files |
| `Clip.Reader.IndexHeaders` | probes/video/plank-probe-vaapi-decode.cpp:100-117 | the header-indexing loop |
| `Clip.Reader.Packet` | probes/video/plank-probe-vaapi-decode.cpp:122-133 | a packet by index, counted modulo the number of packets |
| `ClipboardText.AcceptsExactly` | protocol/plank-transport/include/plank_clipboard_wire.h:66-81 | the validator accepts exactly the byte strings of 1 to 524288 bytes that are the UTF-8 encoding (section 4 of RFC 3629) of a sequence of non-NUL scalar values |
| `ClipboardText.EncodingIsUnique` | protocol/plank-transport/include/plank_clipboard_wire.h:65-81 | and that sequence is determined by the bytes |
| `ClipboardText.ValidText` | protocol/plank-transport/include/plank_clipboard_wire.h:66-81 | the cursor loop decides it without reading past the end |
| `ClipboardText.WrittenChunkDecodes` | protocol/plank-transport/include/plank_clipboard_wire.h:31-63 | a written chunk header is accepted exactly when it describes a part of a text within the limits, and comes back unchanged |
| `ClipboardText.AcceptedChunkIsCanonical` | protocol/plank-transport/include/plank_clipboard_wire.h:41-47 | an accepted record is the encoder's own exactly unless it starts a text without the FIRST flag |
| `ClipboardText.UnflaggedFirstChunk` | protocol/plank-transport/include/plank_clipboard_wire.h:41-47 | such records are accepted: the decoder does not require the flag at offset 0 |
| `ClipboardText.ReadLittleEndian` | protocol/plank-transport/include/plank_clipboard_wire.h:21-25 | the or-loop computes the little-endian number |
| `ClipboardText.WriteLittleEndian` | protocol/plank-transport/include/plank_clipboard_wire.h:26-28 | the shift loop stores the little-endian bytes and no others |
| `ClipboardText.WriteHeader` | protocol/plank-transport/include/plank_clipboard_wire.h:52-63 | the header fills 32 bytes of the buffer and no others |
| `Bytes.Sink.WriteAll` | probes/wacom/plank-wacom-raw-bridge.cpp:73-87 | everything is sent in order, however the socket cuts it; when the socket fails on the way, what it had room for has been sent and the result is false |
| `Bridge.SendFrame` | probes/wacom/plank-wacom-raw-bridge.cpp:105-116 | a frame within the limit is sent whole unless the socket fails inside it, which the result tells; a longer one is not sent at all |
| `Bridge.ReceiveFrame` | probes/wacom/plank-wacom-raw-bridge.cpp:118-133 | receives the frame that stands at this position of the stream, or fails |
| `Bridge.SendAll` | probes/wacom/plank-wacom-raw-bridge.cpp:349-359 | a sequence of frames is sent as the concatenation of the frames before the first one over the limit, as far as the socket took it; success means all frames, all bytes |
| `Bridge.ReceiveAll` | probes/wacom/plank-wacom-raw-bridge.cpp:475-480 | receives the next n frames of the stream, or fails |
| `Bridge.SentIsReceived` | probes/wacom/plank-wacom-raw-bridge.cpp:105-133 | a frame that was sent is received with the same fields and payload, wherever it stands |
| `Bridge.ReceivedIsSentIfReservedIsZero` | probes/wacom/plank-wacom-raw-bridge.cpp:118-133 | an accepted frame is what a sender would have produced exactly when its reserved field is zero, which the receiver does not check |
| `Bridge.ReservedIsIgnored` | probes/wacom/plank-wacom-raw-bridge.cpp:118-133 | whatever its reserved field, a frame is received with its fields and payload, wherever it stands |
| `Bridge.ReservedFrame` | probes/wacom/plank-wacom-raw-bridge.cpp:118-133 | for every frame and every non-zero reserved value there are accepted bytes that no sender produces |
| `Bridge.ConversationArrives` | probes/wacom/plank-wacom-raw-bridge.cpp:73-133 | for any sequence of frames and any fragmentation on both sides the receiver gets exactly the frames sent |
| `Bridge.NoneEmptyMeansEachOnce` | probes/wacom/plank-wacom-raw-bridge.cpp:474-489 | after n valid descriptor frames the none-empty check passes exactly when they named each of the n interfaces once |
| `Bridge.TableHolds` | probes/wacom/plank-wacom-raw-bridge.cpp:474-483 | and then each interface has its own descriptor |
| `Bridge.ReceiveDescriptors` | probes/wacom/plank-wacom-raw-bridge.cpp:474-483 | the loop that fills the host's table |
| `Bridge.HostDescriptors` | probes/wacom/plank-wacom-raw-bridge.cpp:460-489 | the host's half of the hand-shake, from the device frame to the check |
| `Bridge.DescriptorsArrive` | probes/wacom/plank-wacom-raw-bridge.cpp:349-359 | an honest client's descriptor list arrives intact, and is refused exactly when empty or longer than 16 |
| `Planes.TrailingZeroes` | probes/x11/plank-probe-x11-native10.cpp:37-47 | the loop counts the trailing zeros |
| `Planes.BitCount` | probes/x11/plank-probe-x11-native10.cpp:49-56 | the loop counts the set bits |
| `Planes.ZeroesEnd` | probes/x11/plank-probe-x11-native10.cpp:37-47 | the trailing zeros end at the lowest set bit |
| `Planes.OnesAreSetBits` | probes/x11/plank-probe-x11-native10.cpp:49-56 | what is counted are the set bits, position by position |
| `Planes.UnpackInvertsPack` | probes/x11/plank-probe-x11-native10.cpp:63-69 | with pairwise disjoint masks, unpacking the or of any number of packed codes returns a code exactly when each of its bits has a place in the mask |
| `Planes.ContiguousKeepsAllCodes` | probes/x11/plank-probe-x11-native10.cpp:59-69 | the masks that keep every code of their width are exactly those with one run of bits |
| `Planes.CodesSurvive` | probes/x11/plank-probe-x11-native10.cpp:59-69 | with contiguous, pairwise disjoint masks every channel returns every code of its width from the or of all packed codes |
| `Planes.UnpackRows` | probes/x11/plank-probe-x11-native10.cpp:267-284 | unpacks these rows and leaves all other samples alone |
| `Planes.UnpackSingle` | probes/x11/plank-probe-x11-native10.cpp:286-292 | the serial result: three planes, sample by sample |
| `Planes.PixelsSurvive` | probes/x11/plank-probe-x11-native10.cpp:267-292 | where a pixel of the image is the or of three packed codes, the planes hold these codes at the pixel's place: green, then blue, then red |
| `Planes.RowsHaveOneWorker` | probes/x11/plank-probe-x11-native10.cpp:300-304 | the floor-divided row ranges give every row of the image exactly one worker, for every height and number of threads |
| `Planes.WorkerStep` | probes/x11/plank-probe-x11-native10.cpp:300-311 | a store by any worker leaves everything the others have stored in place |
| `Planes.UnpackParallel` | probes/x11/plank-probe-x11-native10.cpp:294-315 | whatever the order of the single stores of all workers, the planes are those of the serial version (with no thread at all nothing is written) |
| `Policy.HeaderIsPattern` | packaging/client/linux/update-policy.py:12 | a line opens a section exactly when it has the shape of the section pattern |
| `Policy.AssignmentIsPattern` | packaging/client/linux/update-policy.py:13 | a line assigns a key exactly when it has the shape of the assignment pattern |
| `Policy.LineShape` | packaging/client/linux/update-policy.py:32 | where splitlines cuts a text: every line but the last ends in a line boundary, and no line has one inside |
| `Policy.JoinLines` | packaging/client/linux/update-policy.py:32 | the cut lines join to the text again |
| `Policy.OnlyAdds` | packaging/client/linux/update-policy.py:16-61 | what the updated policy says is what the old one said, in order, with the template's assignments of exactly the missing keys put in at one place under [network] |
| `Policy.KeepsEveryValue` | packaging/client/linux/update-policy.py:16-61 | a key that had values keeps exactly these, one of the four that had none gets exactly one, every other key stays unset: nothing is duplicated or shadowed |
| `Policy.AllKeysSet` | packaging/client/linux/update-policy.py:16-61 | all four keys are present under [network] afterwards |
| `Policy.Idempotent` | packaging/client/linux/update-policy.py:32-46 | a second update, from any complete template, returns its input |
| `Policy.TextSurvives` | packaging/client/linux/update-policy.py:47-57 | no character is lost: the update is the old text with something put in at one point |
| `Policy.AddsExactly` | packaging/client/linux/update-policy.py:44-57 | the updated text to the letter: the policy up to its first [network] line, the blocks of the keys it does not set in their order, each before an empty line, and the rest; or the whole policy, a [network] line and the blocks |
| `Policy.TemplateBlocks` | packaging/client/linux/update-policy.py:17-28 | a key's block is the last line of the template that assigns it under [network], with all comment lines directly before it |
| `Policy.StripEndExactly` | packaging/client/linux/update-policy.py:27-27 | in it the line loses exactly the carriage returns and line feeds at its end |
| `Policy.LengthIsEncoded` | packaging/client/linux/update-policy.py:58-60 | the length that is limited is that of the UTF-8 encoding |
| `Policy.CommentsSilent` | packaging/client/linux/update-policy.py:23-24 | comment lines neither open a section nor assign a key |
| `Policy.CommentKey` | packaging/client/linux/update-policy.py:40-44 | a comment line never counts as an assignment of one of the four keys |
| `Policy.Refusal` | packaging/client/linux/update-policy.py:29-60 | the update is refused exactly when the template leaves one of the four keys unset under [network], or the policy does and is too long once completed; a policy that sets all four comes back as it is, however long |
| `Policy.BlocksAreSaid` | packaging/client/linux/update-policy.py:17-30 | over all lines of a template, one of the four keys ends up with a block exactly when some line assigns it under [network] |
| `Policy.ReadTemplate` | packaging/client/linux/update-policy.py:17-29 | the loop over the template |
| `Policy.ReadPolicy` | packaging/client/linux/update-policy.py:33-43 | the loop over the policy |
| `Policy.AddMissingKeys` | packaging/client/linux/update-policy.py:16-61 | the whole function with its loops |
| `Collector.EntriesInPlace` | scripts/package/collect-package.py:105-126 | at every moment, even right after a crash, every manifest entry has its package with the entry's digest and its .sha256 file in place, and paths are unique |
| `Collector.Immutable` | scripts/package/collect-package.py:105-126 | no sequence of calls, failures and crashes takes a record out of the manifest or changes a package in place |
| `Collector.RecordsNeverChange` | scripts/package/collect-package.py:105-107 | two records of one path, at any two moments, are equal |
| `Collector.Completed` | scripts/package/collect-package.py:122-127 | when a call succeeds its record is listed and SHA256SUMS is exactly the manifest's path-sorted list of digests |
| `Collector.RestartReachesTheSame` | scripts/package/collect-package.py:85-132 | wherever a call is cut off, calling again with the source as it was has the outcome that going on would have had |
| `Collector.CallExactly` | scripts/package/collect-package.py:85-132 | an uninterrupted call succeeds exactly if the manifest is the version's own, has no other record for the path and the package, if in place, has the digest; then exactly the package, its .sha256 file, one more record, the sums and on a move the source have changed, and otherwise nothing |
| `Collector.BeforeAtFirstDifference` | scripts/package/collect-package.py:124-124 | paths are ordered at their first difference, a prefix before what it begins |
| `Collector.NothingLostByMoving` | scripts/package/collect-package.py:128-132 | a source is removed only when a recorded package with the digest of the removed bytes is in place |
| `Collector.Collection.PutPackage` | scripts/package/collect-package.py:108-121 | puts the package in place unless it is there, and fails on any other digest |
| `Collector.Collection.Collect` | scripts/package/collect-package.py:85-132 | an uninterrupted call, in place |
| `Pacing.CatchesUp` | probes/video/plank-probe-client-kms.cpp:374-390 | a late input wakes up in (now, now + refresh], after the least number of whole periods; target and epoch move along; an input in time is left alone |
| `Pacing.Underflow` | probes/video/plank-probe-client-kms.cpp:377-384 | the wake-up is the lead before the target if and only if the target is not earlier than the lead; otherwise the 64-bit subtraction wraps |
| `Pacing.EpochUnderflow` | probes/video/plank-probe-client-kms.cpp:374-384 | for an epoch some periods behind an event (120 at the start, one in the KMS probe's steady phase) the first wake-up is sound if and only if the lead is at most the event plus these periods |
| `Pacing.TargetsKeepPhase` | probes/video/plank-probe-client-pipeline.cpp:710-720 | if the first target is no earlier than the lead, and it and all clock readings stay so far below 2^64 that one period per input fits in, any two targets of one epoch differ by a whole number of refresh periods, at least one per input between them, however late the inputs are |
| `Pacing.ArgumentsAreAccepted` | probes/video/plank-probe-client-kms.cpp:193-196 | a mode between 59 and 61 Hz and a lead below 16,667 microseconds give a period of 16,393,443 to 16,949,153 ns and a lead of at most 16,666,000 ns |
| `Pacing.AcceptedArgumentsNeverWrap` | probes/video/plank-probe-client-kms.cpp:328-390 | with these arguments, in every run of inputs, vertical blanks, flips and failures, the pacing of the next input neither underflows nor overflows, as long as 64 bits hold the clock and one period per input |
| `Pacing.SteadyInputs` | probes/video/plank-probe-client-kms.cpp:357-413 | from frame 3 on, while nothing fails, stamps carry the targets of the steady schedule and the synthetic timestamps |
| `Pacing.InputExactly` | probes/video/plank-probe-client-kms.cpp:344-413 | one input: its number, when it fails the probe or is dropped, which epoch and lead it is paced with, the least shift of that epoch, and its stamp |
| `Pacing.InPhaseWithTheDisplay` | probes/video/plank-probe-client-kms.cpp:328-377 | a vertical blank releases frame 2 and the flip of frame 2 releases frame 3; their targets lie whole periods, at least 120 and at least one, behind these events |
| `Pacing.PtsIncreasing` | probes/video/plank-probe-client-kms.cpp:357-361 | synthetic timestamps are strictly increasing and identify the frame |
| `Pacing.PtsSpacing` | probes/video/plank-probe-client-kms.cpp:357-361 | they start at zero and advance one second in 60 frames, evenly up to rounding |
| `Pacing.Matching` | probes/video/plank-probe-client-kms.cpp:430-446 | whatever the decoder drops, matching goes on exactly as long as the outputs are submitted inputs in order; every output takes the stamp with its timestamp, and the stamps left are exactly those later than every output |
| `Pacing.OwnStamps` | probes/video/plank-probe-client-kms.cpp:430-446 | an output of frame f takes the stamp of frame f, no stamp serves twice, every stamp left belongs to a later frame |
| `Pacing.Probe.Pace` | probes/video/plank-probe-client-kms.cpp:377-390 | the arithmetic of one input, in place |
| `Pacing.Probe.EstablishPhase` | probes/video/plank-probe-client-kms.cpp:328-340 | the first epoch, 120 periods after a vertical blank, in place |
| `Pacing.Probe.OnDecoderInput` | probes/video/plank-probe-client-kms.cpp:344-413 | on_decoder_input once its wait is over, in place, with both of its failing exits |
| `Pacing.Probe.OnFlip` | probes/video/plank-probe-client-kms.cpp:500-540 | a flip earlier than its submission is refused; the flip of frame 2 sets the steady epoch, in place |
| `Pacing.Probe.OnNewSample` | probes/video/plank-probe-client-kms.cpp:425-446 | search and erase in the stamp queue, in place |
| `Microphone.DecodeInvertsEncode` | protocol/plank-transport/src/microphone.rs:54-95 | decoding an encoded packet gives it back |
| `Microphone.EncodeInvertsDecode` | protocol/plank-transport/src/microphone.rs:54-95 | every accepted record is the encoding of its packet |
| `Microphone.VersionSaysTimed` | protocol/plank-transport/src/microphone.rs:58-86 | version 2 means no capture time and a 24-byte header, version 3 a non-zero one and 32 bytes |
| `Microphone.AcceptsExactly` | protocol/plank-transport/src/microphone.rs:67-95 | the accepted records byte by byte, and what the decoder reads from them |
| `Microphone.WritesExactly` | protocol/plank-transport/src/microphone.rs:54-66 | the encoder writes such a record with the packet's fields in these places |
| `Microphone.EncodePacket` | protocol/plank-transport/src/microphone.rs:54-66 | the encoder, field by field |
| `Camera.DecodeInvertsEncode` | protocol/plank-transport/src/camera.rs:72-151 | decoding an encoded v1 packet gives it back |
| `Camera.EncodeInvertsDecode` | protocol/plank-transport/src/camera.rs:72-151 | every accepted v1 record is the encoding of its packet |
| `Camera.EncodePacket` | protocol/plank-transport/src/camera.rs:96-117 | the v1 encoder, field by field |
| `EncodedCamera.DecodeInvertsEncode` | protocol/plank-transport/src/camera_encoded.rs:63-146 | decoding an encoded v2 packet gives it back |
| `EncodedCamera.EncodeInvertsDecode` | protocol/plank-transport/src/camera_encoded.rs:63-146 | every accepted v2 record is the encoding of its packet |
| `EncodedCamera.VersionsAreDisjoint` | protocol/plank-transport/src/camera_encoded.rs:109-120 | no record is accepted by both versions |
| `EncodedCamera.EncodePacket` | protocol/plank-transport/src/camera_encoded.rs:83-108 | the v2 encoder, field by field |
| `CameraRecord.ReEncodes` | protocol/plank-transport/src/camera_record.rs:62-94 | a queue record re-encodes to the bytes it came from, under their version, which is the only one that accepts them |
| `CameraRecord.SurvivesTheWire` | protocol/plank-transport/src/camera_record.rs:26-94 | an encodable value of the record type survives the wire exactly unless it combines a v2 format with a device sequence |
| `CameraRecord.NativeSurvives` | protocol/plank-transport/src/camera_record.rs:36-94 | the record made from any valid v1 packet encodes, and decodes under version 1 to itself |
| `CameraRecord.EncodedSurvives` | protocol/plank-transport/src/camera_record.rs:49-94 | the record made from any valid v2 packet encodes, and decodes under version 2 to itself |
| `CameraHeader.SameLanguage` | protocol/plank-transport/include/plank_transport_camera.h:77-99 | the C and the Rust v1 decoder accept the same records with the same fields |
| `CameraHeader.HeaderEncode` | protocol/plank-transport/include/plank_transport_camera.h:58-76 | the C v1 encoder writes the header of the Rust encoder into 64 bytes of the buffer and no others, or leaves it alone |
| `EncodedCameraHeader.SameLanguage` | protocol/plank-transport/include/plank_transport_camera_encoded.h:46-61 | the C and the Rust v2 decoder accept the same records with the same fields |
| `EncodedCameraHeader.HeaderEncode` | protocol/plank-transport/include/plank_transport_camera_encoded.h:31-45 | the C v2 encoder writes the header of the Rust encoder |
| `Words.U64` | protocol/plank-transport/include/plank_transport_camera.h:34-36 | two 32-bit reads make the 64-bit big-endian number |
| `Words.WriteU64` | protocol/plank-transport/include/plank_transport_camera.h:37-40 | two 32-bit writes store the 64-bit big-endian number |
| `Words.WriteU32` | protocol/plank-transport/include/plank_transport_control.h:64-70 | four stores write the 32-bit big-endian number |

## Left out

- Capture, GPU, display and codec calls (NvFBC, NVENC, CUDA, x264, EGL, Wayland, KMS, VA-API, VideoToolbox, Core Audio): they appear as steps that succeed or fail. The encoder's output time stamp is taken to equal its input time stamp.
- Memory ordering weaker than sequential consistency: the C11 atomics used have the default, sequentially consistent order.
- Notifications of condition variables: a waiting thread is enabled as soon as its predicate holds.
- `VideoPipeline`: the optional reference bitstream file, pacing sleeps, the latency lists, the forced IDR frame, and what a failed write leaves in the bitstream file. A captured and encoded picture is represented by its time stamp.
- `EncoderRing`: the encoder's own output and delayed frames behind the loop; a read that returns an error and the end of the input are one case.
- `Presentation`: the serial mode (it has no hand-off), the measured lists and floating-point gates, `has_extension`, and the time comparison behind a stale drop, which may happen to any frame in the asynchronous modes. That samples meet their stamps in queue order is taken from the decoder.
- `ClockSnapshot.AcceptedSnapshots`: for runs with fewer than 2^64 counter increments; `ClockSnapshot.NoTornSnapshot` covers one read with the counter going round.
- `ToneSource`: the clock frame is an arbitrary natural number, because the source computes it in floating point; 64-bit overflow of frame + 2400 and of the 32-bit statistics counters; the sample values; the tick-gap statistics. The buffer's write and reset are entries of a log, since microphone-buffer.h is not part of this model.
- `AnnexB`: failing writes to the output file and the choice between the HEVC and H.264 parameter-set calls.
- `Recorder`: file names and the opening and checking of the directory; descriptors are positions in the list of files; a partial write is modelled by how many bytes the file system accepts.
- `Clip`: read errors of a file that changes while it is open.
- `ClipboardText`, `CameraHeader`, `EncodedCameraHeader`: null pointers, which are all rejected. Out-structures are results; buffers are arrays.
- `Bridge`: what follows the hand-shake (polling, reports, UHID) and the naming strings of the device message; UHID_DATA_MAX and HID_MAX_DESCRIPTOR_SIZE are both 4096, from linux/uhid.h. The packed header is little-endian, as on the machines the bridge runs on.
- `Planes`: X11 images in other byte orders, and negative widths, heights and pitches. A store to one plane is one atomic step. Bit operations are defined by halving and doubling of natural numbers.
- `Policy`: texts are decoded strings; bytes that are not UTF-8 are refused before the modelled part. Ownership checks and the atomic replacement of the file in `update`.
- `Collector`: the argument checks before the lock, Git provenance, JSON text, file modes and temporary files; a rename is one effect. The lock is modelled as one call at a time per version directory, and nobody else changes that directory.
- `Pacing`: the display worker of the KMS probe beyond its flip (its hand-off is that of `Presentation`), and the sleeping itself: a reading after a sleep that worked is not earlier than the wake-up time.
- `Pacing.AcceptedArgumentsNeverWrap`: clock readings are bounded by a constant that leaves room in 64 bits for the lead and one period per input.
- `Pacing.SteadyInputs`: for stretches in which no other thread sets the failure flag; `Pacing.AcceptedArgumentsNeverWrap` is about runs where it may be set at any time.
- `Microphone`, `Camera`, `EncodedCamera`: error texts, endpoint registration and endpoint numbers.
- The setup, control, event and input codecs, the encoding profiles, `config.rs`, `native.rs`, `rate_control.rs` and the Python tooling around Git, signing and dependency caches: flat tables and wrappers that would only add easy members, or code over libraries that are not part of this model.
