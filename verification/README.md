# Verified model of vinpst's capture, protocol and persistence cores

This Dafny project models the parts of vinpst whose correctness spans several functions,
threads or processes, and proves what they promise over every input, every run and every
interleaving. `dafny verify dfyconfig.toml` checks all of it.

The source changes state step by step in most of these parts, so they are classes whose
methods follow the source and are tied to a specification function (`ensures (View(), r) ==
Step(old(View()), op)`, or the abstract state spelled out); the theorems are lemmas about
those functions over whole runs. Pure code is modelled as functions. Interleavings are
transition systems with a total `Step` (an action that is not enabled changes nothing), a run
is a sequence of actions, and every OS, network or PipeWire outcome is part of the action, so
every fault is covered by "for all runs".

| module | what it models |
|---|---|
| `CaptureWorker`, `CaptureSystem` | the PipeWire recording worker, its idle timer thread and the recorder facade, with the commands in flight |
| `CaptureLiveness` | that system under infinite fair schedules: its calls return |
| `CaptureCallback` | the real-time audio callback of one stream against the starting and finishing worker |
| `CaptureOverlap` | the whole recorder with such a callback in flight |
| `IdleDelay` | the idle delay read from the environment |
| `Bytes`, `Pcm`, `SourceRecorder` | little-endian samples, PCM buffers, chunking, silence trimming, the one-shot source recorder |
| `WavCodec`, `RemoteSession` | the RIFF/WAVE reader and writer, and the session that sends a WAV request |
| `Base64`, `CommandStreaming`, `CommandSession` | the command provider's base64, its event-line filter and its session |
| `RemoteText`, `RemoteServer` | the remote-text protocol, and the sockets and deadline tasks around it |
| `RemoteLiveness` | that server under infinite fair schedules: its updates are decided |
| `LivePartials` | partial-text emitters against start and stop handlers |
| `ConfigPersistence`, `ConfigOutcomes` | writing the configuration file with any number of writers, faults and crashes; what each call returns, and why |
| `VadRanges` | padding detected speech and cutting it out |
| `ReleaseManifest` | the release bundle's checksums, manifest and self-check |
| `ExecQuoting` | quoting arguments into one command line, read by a shell and from a D-Bus service file |
| `Wrappers`, `Text`, `Recognition` | shared datatypes, trimming, recognition events |

## What the proofs found

Where a promise does not hold everywhere, the exact condition is proved.

* A Begin that fails moves the idle generation on without scheduling anything, so the stream it
  leaves behind is not destroyed until the next call. Between calls an idle stream has its
  destruction underway if and only if no start has failed since its Finish
  (`CaptureSystem.IdleStreamIsScheduledUnlessAStartFailed`, with a run in
  `CaptureSystem.AFailedStartLeavesAnIdleStream`).
* A backup path can defeat the atomic write: the config's own path, which copying truncates, or a
  temporary name another call (or the same one) takes, whose staged document the copy replaces.
  The config path is safe in every run if and only if the original is on disk and no valid call
  has such a backup path while there is a config to copy
  (`ConfigPersistence.SafeIffBackupsAreHarmless`); the adjacent `.bak` path never is one.
* The rename is not made durable: power loss after an Ok can bring the original back
  (`ConfigPersistence.PowerLossCanUndoAnOk`). While the power stays on the last rename wins
  (`ConfigPersistence.TheLastPublisherWins`).
* A cancelled emitter can send one late text. A stop that ends with the text last heard sends it
  again if and only if the emitter was caught between its signal and its write-back
  (`LivePartials.StopRepeatsIffUnwritten`).
* An audio callback caught past its `accepting` check makes a capture inexact: the last buffer is
  missing, or one of the recording before comes first. A capture is what was accepted if and only
  if no callback was in flight at its two ends, or one callback outlasted it
  (`CaptureCallback.ACaptureIsOffByTheBuffersInFlight`, `CaptureCallback.ABufferCanBeCarriedOver`);
  if deactivation waits for a running callback every capture is exact. In the whole recorder,
  across retries, dropped streams and new workers, every capture is accounted for in the same way
  (`CaptureOverlap.EveryCaptureIsAccountedFor`).
* `assemble` builds a bundle its own self-check refuses exactly when a package field or the
  artifact list is empty (`ReleaseManifest.StagingVerifiesIffFilled`).
* The cut of padded speech is a subsequence of the audio (no sample twice, none out of order) if
  and only if the segments that are kept are in order with gaps of at least twice the padding
  (`VadRanges.CutIsASubsequenceIffWellSpaced`, with two segments whose cut repeats samples in
  `VadRanges.CloseSegmentsRepeatSamples`).
* The quoting is a shell's, but the command also becomes the `Exec` entry of a D-Bus service file,
  whose escapes are undone first. The service gets its arguments if and only if none of them has a
  quote, a backslash or a line break (`ExecQuoting.ServiceGetsItsArgumentsIffNothingToEscape`).
* Quoting keeps line breaks as they are, so a command line fits on the one line it is written to
  if and only if no argument has a line break (`ExecQuoting.OneLineIffNoLineBreak`).
* A pending remote text keeps its deadline if and only if no flush came while the output was
  down and the input client has not disconnected; otherwise it waits for a further update or
  flush (`RemoteServer.APendingUpdateIsDueIffUndisturbed`, with a run in
  `RemoteServer.AnUpdateCanBeStranded`). If sleeping deadlines always wake at some time, every
  update is decided: delivered, replaced, or met by a disconnect or by a flush while the output is
  down (`RemoteLiveness.EveryUpdateIsDecided`).
* The remote-text protocol by itself answers `committed` to a commit with nothing to deliver even
  while no output is connected (`RemoteText.CommittedRefinesHistory` says exactly when it answers);
  the server never lets that happen (`RemoteServer.OutputEventsComeWhileUp`).

## Model

| member | source | states |
|---|---|---|
| CaptureSystem.ExpiryDropsOnlyAnUntouchedStream | crates/vinpst-audio/src/pipewire_backend.rs:577-648 | in every interleaving of facade, timer and worker, with any PipeWire call failing, an expiry that drops a stream comes with nothing but idle buffers after the Finish that issued its generation: no Begin passed the busy check, nothing recorded |
| CaptureSystem.GenerationsAreDistinct | crates/vinpst-audio/src/pipewire_backend.rs:820-832 | over any run the generations one worker issues strictly increase, so no two idle periods share one |
| CaptureSystem.CaptureIsWhatWasHeard | crates/vinpst-audio/src/pipewire_backend.rs:782-832 | every finished capture is the in-order concatenation of the buffers appended since the activation of that recording, late ones included; nothing appended in idle time or an earlier recording is carried over (`CaptureOverlap` relates what is appended to what was accepted) |
| CaptureCallback.ACaptureIsOffByTheBuffersInFlight | crates/vinpst-audio/src/pipewire_backend.rs:916-969 | in every interleaving of the callback with starting and finishing, a capture and the buffer missing at its end are the straggler at its start and all accepted buffers in order; it is exact if and only if missing and straggler are the same |
| CaptureCallback.QuiescentCapturesAreExact | crates/vinpst-audio/src/pipewire_backend.rs:803-832 | if no callback runs when samples are taken or a start is given up, every capture is exactly what was accepted |
| CaptureCallback.ABufferCanBeCarriedOver | crates/vinpst-audio/src/pipewire_backend.rs:782-801 | a run in which a capture holds a buffer of the recording before and none of its own |
| CaptureOverlap.EveryCaptureIsAccountedFor | crates/vinpst-audio/src/pipewire_backend.rs:720-832 | in every interleaving of all threads with callbacks split at their check, through retries, failed starts, dropped streams and new workers: a capture and the buffer missing at its end are the straggler at its start and all buffers accepted since, in order; it is exact if neither was in flight and wrong if one was |
| CaptureOverlap.QuiescentCapturesAreExact | crates/vinpst-audio/src/pipewire_backend.rs:720-832 | if no callback is in flight when the worker handles a Begin or a Finish, every capture is exactly what was accepted |
| CaptureOverlap.TheSystemRunsAsBefore | crates/vinpst-audio/src/pipewire_backend.rs:916-969 | with callbacks in flight the rest of the recorder still makes a run of `CaptureSystem`, so every property of its runs holds |
| CaptureSystem.FacadeAgreesWithWorker | crates/vinpst-audio/src/pipewire_backend.rs:259-376 | at every moment recording implies a stream and a stream listens exactly while recording; between calls the facade's flag equals the worker's |
| CaptureSystem.EveryCaptureIsFromItsTarget | crates/vinpst-audio/src/pipewire_backend.rs:259-349 | in every run what is being recorded, and the capture a stop hands out, is from the target of the last call to begin that was accepted, and on a new worker if that call ran without stream reuse |
| CaptureSystem.ACancelLeavesNothingRunning | crates/vinpst-audio/src/pipewire_backend.rs:352-371 | when a cancel or a drop has come to its end both threads are gone |
| CaptureSystem.AStopKeepsTheStreamIfAsked | crates/vinpst-audio/src/pipewire_backend.rs:321-350 | a stop with a capture sends the expiry of its generation to the worker at once for a zero delay, to the timer for any other, or shuts both threads down without reuse or when that fails |
| CaptureLiveness.EveryCallReturns | crates/vinpst-audio/src/pipewire_backend.rs:259-376 | under every fair schedule every call of the facade returns or ends in its drop, whatever the PipeWire calls answer, however many expiries and buffers come in between and wherever the timer stands |
| CaptureLiveness.StepIsNoFarther | crates/vinpst-audio/src/pipewire_backend.rs:518-648 | in every reachable state inside a call one thread's turn is awaited; taking it brings the call closer to its end for every outcome, and no other step of any thread moves it away |
| CaptureLiveness.RoundRobinIsFair | crates/vinpst-audio/src/pipewire_backend.rs:518-648 | fair schedules exist, so that the liveness result is not empty |
| CaptureSystem.EveryTimedExpiryIsDue | crates/vinpst-audio/src/pipewire_backend.rs:618-648 | in every run of the system an expiry the timer thread sends is that of the last schedule it received, whose deadline had not passed before |
| CaptureSystem.IdleStreamIsScheduledUnlessAStartFailed | crates/vinpst-audio/src/pipewire_backend.rs:577-600 | between calls an idle stream has an expiry of its generation queued or due if and only if its Finish is the last event; the only other way to be idle is a failed start |
| CaptureSystem.AFailedStartLeavesAnIdleStream | crates/vinpst-audio/src/pipewire_backend.rs:720-779 | a reachable state with an idle connected stream and nothing in flight that would destroy it |
| CaptureSystem.StepKeepsInv | crates/vinpst-audio/src/pipewire_backend.rs:666-718 | every step of every thread keeps the system invariant, including which requests may be queued in which phase of the facade |
| CaptureSystem.BeginKeepsInv | crates/vinpst-audio/src/pipewire_backend.rs:720-779 | whatever the creation and activation calls return, a handled Begin keeps every expiry in flight stale |
| CaptureSystem.ExpireKeepsInv | crates/vinpst-audio/src/pipewire_backend.rs:702-708 | an expiry handled late, early or twice keeps the invariant |
| CaptureWorker.CommandsKeepConsistent | crates/vinpst-audio/src/pipewire_backend.rs:720-846 | each worker command keeps recording, stream and listening flag in agreement for every outcome of its PipeWire calls; a Finish never yields unaligned audio |
| CaptureWorker.BeginRecordsTheRequest | crates/vinpst-audio/src/pipewire_backend.rs:720-779 | a Begin starts exactly if not recording and a stream of the requested target and layout, kept or new, gets activated; the recording is from that stream, and counts as reused exactly if the kept one was activated at the first try |
| CaptureWorker.AFailedBeginLeaves | crates/vinpst-audio/src/pipewire_backend.rs:720-779 | a Begin that fails leaves another target's stream alone if none could be created, no stream if the new one failed, and a silent stream of the requested layout where there was one |
| CaptureWorker.FinishHandsOutTheSamples | crates/vinpst-audio/src/pipewire_backend.rs:803-833 | a Finish hands out exactly the recording stream's samples under its target and the next generation, and keeps that stream empty; a failed deactivation drops it |
| CaptureWorker.ChunkIsWhatWasWritten | crates/vinpst-audio/src/pipewire_backend.rs:932-947 | samples written anywhere in the mapped data are the chunk read at that place; a range that ends outside has none |
| CaptureWorker.HearAllKeepsEverything | crates/vinpst-audio/src/pipewire_backend.rs:916-969 | a listening stream keeps every chunk it hears, in order; empty chunks add nothing |
| CaptureWorker.Worker.BeginWorkerRecording | crates/vinpst-audio/src/pipewire_backend.rs:720-779 | the whole new worker state for each outcome of reuse, creation, activation and the one retry, or the unchanged state when busy |
| CaptureWorker.Worker.ActivateWorkerStream | crates/vinpst-audio/src/pipewire_backend.rs:782-801 | samples are cleared before listening starts, and a failed activation leaves the stream not listening |
| CaptureWorker.Worker.FinishWorkerRecording | crates/vinpst-audio/src/pipewire_backend.rs:803-833 | the capture handed out, the emptied stream and the next generation; a failed deactivation drops the stream without a new generation |
| CaptureWorker.Worker.ExpireIdle | crates/vinpst-audio/src/pipewire_backend.rs:514-516 | drops the stream exactly for the current generation while not recording |
| CaptureWorker.Worker.ShutdownWorkerState | crates/vinpst-audio/src/pipewire_backend.rs:835-846 | no stream, not recording, generation moved on |
| CaptureWorker.Worker.CaptureStreamBuffer | crates/vinpst-audio/src/pipewire_backend.rs:916-969 | appends the decoded in-range samples only while listening |
| CaptureWorker.RunIdleDestroyTimer | crates/vinpst-audio/src/pipewire_backend.rs:618-648 | for any run of messages and deadlines, sends in order the generation of exactly those schedules whose deadline passes with no other schedule and no deadline in between, and nothing once stopped or disconnected |
| IdleDelay.FoldIsTheClampedValue | crates/vinpst-audio/src/pipewire_backend.rs:496-500 | the saturating fold of any digit string equals its unbounded decimal value clamped to 2^64-1 |
| IdleDelay.NumberIsClamped | crates/vinpst-audio/src/pipewire_backend.rs:475-505 | for every text that is blanks, an optional sign, digits and a rest, the delay is the mathematical value clamped to 600000, or the default when it is negative and not zero |
| IdleDelay.OtherTextIsTheDefault | crates/vinpst-audio/src/pipewire_backend.rs:475-496 | every text of no such form gives the default |
| Bytes.BytesToSamplesOfSamplesToBytes | crates/vinpst-audio/src/lib.rs:71-77 | reading the little-endian bytes of samples gives the samples back, for every 16-bit value |
| Bytes.SamplesToBytesOfBytesToSamples | crates/vinpst-audio/src/lib.rs:120-129 | an even number of bytes survives the way through samples |
| Bytes.I16SamplesToLeBytes | crates/vinpst-audio/src/lib.rs:71-77 | the loop produces bytes that read back as the samples |
| Pcm.WithSpec | crates/vinpst-audio/src/lib.rs:102-112 | succeeds exactly for a non-zero rate and channel count and a whole number of frames |
| Pcm.FromPcm16leBytes | crates/vinpst-audio/src/lib.rs:120-129 | succeeds exactly for an even number of bytes, a valid layout and whole frames, with the first failing check as its error; what it accepts writes back to the given bytes |
| Pcm.ChunkRangesByFrames | crates/vinpst-audio/src/lib.rs:192-211 | an error exactly for size 0, else the partition into pieces at multiples of the size |
| Pcm.PartitionIsContiguous | crates/vinpst-audio/src/lib.rs:192-211 | pieces are non-empty, start at 0, follow each other without gap, end at the frame count, and all but the last have the maximal size |
| Pcm.PieceCountIsCeiling | crates/vinpst-audio/src/lib.rs:192-211 | there are ceil(frames/max) pieces |
| Pcm.ChunksByFrames | crates/vinpst-audio/src/lib.rs:214-226 | never fails for a positive size: each chunk is a whole-frame slice of the buffer with its layout |
| Pcm.ChunksGiveTheBufferBack | crates/vinpst-audio/src/lib.rs:214-226 | concatenating the chunks gives the buffer back, for every channel count and size |
| Pcm.SilentIffNoLoudFrame | crates/vinpst-audio/src/lib.rs:285-291 | per-sample silence agrees with per-frame loudness, with 32768 as the magnitude of -32768 |
| Pcm.TrimIsTheUniqueMaximalTrim | crates/vinpst-audio/src/lib.rs:294-318 | the trim is empty exactly on silence; otherwise it is the one cut with loud ends and only quiet frames outside |
| Pcm.TrimIsIdempotent | crates/vinpst-audio/src/lib.rs:294-318 | trimming a trimmed buffer changes nothing |
| SourceRecorder.SourceAudioRecorder.BeginRecording | crates/vinpst-audio/src/lib.rs:750-771 | the new state and result in every case; each read is delivered at most once, and a failed read leaves the recorder stopped |
| SourceRecorder.SourceAudioRecorder.StopAndGetBuffer | crates/vinpst-audio/src/lib.rs:777-788 | returns the capture delivered at the start or reads exactly one more; no read is returned twice over the recorder's life |
| SourceRecorder.SourceAudioRecorder.CancelRecording | crates/vinpst-audio/src/lib.rs:790-794 | forgets the pending capture, so that it can never be returned |
| SourceRecorder.SourceAudioRecorder.DeliverCapture | crates/vinpst-audio/src/lib.rs:734-747 | delivery never fails and appends at most this one read to the deliveries |
| SourceRecorder.SourceAudioRecorder.WithChunkFrames | crates/vinpst-audio/src/lib.rs:720-727 | refuses size 0 and leaves the size as it was |
| SourceRecorder.DeliveryIsTheCapture | crates/vinpst-audio/src/lib.rs:734-747 | for every chunk size the callback hears exactly the captured samples |
| WavCodec.DecodeWavPcm16le | crates/vinpst-audio/src/lib.rs:847-884 | on every byte string the chunk loop ends, stays in bounds and gives an error or a valid, frame-aligned buffer |
| WavCodec.DecodeIsMeaning | crates/vinpst-audio/src/lib.rs:847-884 | for every list of well-formed chunks the loop computes the list's meaning: any bad fmt fails with its own error, else the last fmt and the last data chunk win |
| WavCodec.EveryAcceptedFileIsItsChunks | crates/vinpst-audio/src/lib.rs:847-884 | conversely every accepted file is such a list, but perhaps for the last filler byte, and is read as that list means |
| WavCodec.FileIsReadAsTheBufferItHolds | crates/vinpst-audio/src/lib.rs:847-884 | for every list of chunks and every buffer: the reader gives that buffer if and only if every fmt chunk parses, the last one to its layout, the last data chunk spells its samples, and they are whole frames; an odd number of bytes never is |
| WavCodec.UnknownChunkChangesNothing | crates/vinpst-audio/src/lib.rs:854-872 | inserting an unknown chunk at any chunk boundary, of any length, changes neither result nor error |
| WavCodec.ParseWavFmtInvertsTheHeader | crates/vinpst-audio/src/lib.rs:886-922 | a fmt chunk is accepted with a layout exactly when its six fields are the header of that layout and every one fits its width |
| WavCodec.FmtChunkParses | crates/vinpst-audio/src/lib.rs:886-922 | the written fmt chunk of every layout the header can hold parses to that layout |
| WavCodec.EncodePcm16leWav | crates/vinpst-asr/src/remote.rs:491-533 | succeeds exactly when layout, alignment and every header field's width allow it, with the first failing check's error otherwise |
| WavCodec.DecodeOfEncode | crates/vinpst-asr/src/remote.rs:491-533 | decoding whatever the encoder produced gives back exactly the layout and the samples |
| WavCodec.CanonicalSize | crates/vinpst-asr/src/remote.rs:503-532 | the file is 44 bytes and the samples, and its size field is the length less 8 |
| RemoteSession.OneRequestWithAllTheAudio | crates/vinpst-asr/src/remote.rs:413-465 | over every run of calls the transport is asked at most once, and its WAV payload decodes to exactly the accepted layout and the concatenation of the accepted audio |
| RemoteSession.BuffersKeepFrames | crates/vinpst-asr/src/remote.rs:414-429 | fed by typed buffers alone, rejected layout changes and empty buffers included, the session always holds whole frames of one valid layout, that of every buffer it took audio from |
| RemoteSession.FinishAsksIffTheAudioFits | crates/vinpst-asr/src/remote.rs:437-465 | then finish builds a request if and only if there is audio and the header's fields can hold it |
| RemoteSession.ATranscriptIsDeliveredAtMostOnce | crates/vinpst-asr/src/remote.rs:459-476 | polls hand out nothing or one trimmed non-empty transcript once over the whole run, only after a request, and nothing after a cancel |
| RemoteSession.SessionHoldsTheAcceptedAudio | crates/vinpst-asr/src/remote.rs:414-435 | the buffered samples are exactly those of the calls that answered Ok |
| RemoteSession.PushIsAcceptedIffOpenAndFitting | crates/vinpst-asr/src/remote.rs:414-435 | in every run a push is accepted if and only if no cancel and no finish came before and, for a buffer, there is no audio yet or its layout is the one that held when the first audio came; and which error it gets otherwise |
| RemoteSession.TheRequestHoldsEveryFittingPush | crates/vinpst-asr/src/remote.rs:437-457 | the request decodes to the layout of the first audio and all audio pushed while the session was open, but for buffers of another layout |
| RemoteSession.AUniformSessionSendsEverything | crates/vinpst-asr/src/remote.rs:414-457 | when all buffers share one layout the request holds everything that was pushed |
| RemoteSession.FinishSucceedsIffTheReplyHasAText | crates/vinpst-asr/src/remote.rs:437-465 | a finish succeeds if and only if the session is open, its audio can be encoded and the reply has a text that is not blank; the first failure is its error |
| RemoteSession.PollsHandOutTheReply | crates/vinpst-asr/src/remote.rs:459-475 | over every run the session holds, and polls hand out, exactly the trimmed text of the one successful reply: it waits until the first poll or cancel after its finish, and goes to that poll |
| RemoteSession.RemoteRecognitionSession.Push | crates/vinpst-asr/src/remote.rs:414-429 | the whole new state and answer of `push_pcm`, as the run function says |
| RemoteSession.RemoteRecognitionSession.PushRaw | crates/vinpst-asr/src/remote.rs:431-435 | the whole new state and answer of `push_audio` |
| RemoteSession.RemoteRecognitionSession.FinishWith | crates/vinpst-asr/src/remote.rs:437-465 | the session is finished before anything can fail; the whole new state for each failure and for a transcript |
| RemoteSession.RemoteRecognitionSession.CancelSession | crates/vinpst-asr/src/remote.rs:467-471 | cancelled, with pending events dropped |
| RemoteSession.RemoteRecognitionSession.PollEvents | crates/vinpst-asr/src/remote.rs:473-475 | hands the pending events out once |
| RemoteSession.RemoteRecognitionSession.EnsureWritable | crates/vinpst-asr/src/remote.rs:479-487 | a cancel outranks a finish in the error |
| RemoteSession.Transcription | crates/vinpst-asr/src/remote.rs:325-335 | accepts exactly a JSON body with a text that is not blank, and gives that text trimmed |
| Text.TrimCutsOnlyBlanks | crates/vinpst-asr/src/remote.rs:328-334 | trimming cuts blanks off both ends and nothing else |
| Base64.EncodeBase64 | crates/vinpst-asr/src/command.rs:213-234 | for every byte string the loop's output decodes, by a reference decoder for section 4 of RFC 4648, to the input |
| Base64.DecodeOfEncoded | crates/vinpst-asr/src/command.rs:213-234 | decoding inverts encoding |
| Base64.EncodedOfDecode | crates/vinpst-asr/src/command.rs:213-234 | and encoding inverts decoding: the output is the only text the strict decoder reads as these bytes |
| Base64.SameGroup | crates/vinpst-asr/src/command.rs:213-234 | the three bytes of the reference decoder are the 24-bit group of the four characters, as the standard defines it |
| Base64.LengthOfEncoded | crates/vinpst-asr/src/command.rs:213-234 | the length is 4 * ceil(n / 3) |
| Base64.ShapeOfEncoded | crates/vinpst-asr/src/command.rs:222-231 | characters of the alphabet, then exactly (3 - n mod 3) mod 3 pads at the end |
| Base64.AudioSurvives | crates/vinpst-asr/src/command.rs:194-211 | the samples of any audio line are recovered exactly |
| CommandStreaming.ParseStdout | crates/vinpst-asr/src/command.rs:382-411 | the nested loops compute the answer defined from the raw events alone: an index-based choice of kept events, closed by Completed |
| CommandStreaming.ParseLine | crates/vinpst-asr/src/command.rs:240-286 | fails exactly on text that is no JSON; at most one event, and no partial without text |
| CommandStreaming.EachKindYieldsItsEvent | crates/vinpst-asr/src/command.rs:240-286 | a line yields a partial, final, error or completion if and only if it is of that kind and holds that trimmed text, with the default message for an error without one; every other line yields nothing |
| CommandStreaming.AnswerShowsThePartialLines | crates/vinpst-asr/src/command.rs:382-398 | the partials of an answer are, in order, the trimmed texts of the partial lines that are not blank, without those that repeat the one before with no final in between |
| CommandStreaming.AnswerHoldsTheOtherLines | crates/vinpst-asr/src/command.rs:382-410 | everything else in an answer is each final, error and closing line in order, and one `Completed` more unless the last line that adds something is a closing one |
| CommandStreaming.RepeatsIffLastPartial | crates/vinpst-asr/src/command.rs:388-396 | comparing with the remembered text drops a partial exactly when it equals the partial before it with no final in between |
| CommandStreaming.NonPartialsAreKept | crates/vinpst-asr/src/command.rs:392-398 | finals, errors and completions all stay, in order |
| CommandStreaming.NothingRepeatsAfterwards | crates/vinpst-asr/src/command.rs:388-396 | filtering the kept events again changes nothing |
| CommandStreaming.FailsIffThereIsNoEvent | crates/vinpst-asr/src/command.rs:402-410 | well-formed lines fail if and only if they yield no event at all; a success ends in Completed |
| CommandStreaming.PayloadIsThatOfTheRawEvents | crates/vinpst-asr/src/payload.rs:8-25 | dropping partials and closing the list never change the payload |
| CommandStreaming.PayloadIsTheFirstResult | crates/vinpst-asr/src/payload.rs:8-25 | the payload is the first final or error, missing only without one |
| CommandStreaming.FirstResultLineIsCommitted | crates/vinpst-asr/src/command.rs:240-286 | from lines to payload: what is committed is the trimmed text of the first final line with text or error line, `failed.` for an error without a message |
| CommandStreaming.NothingIsCommittedWithoutAResult | crates/vinpst-asr/src/command.rs:240-286 | lines without such a line commit nothing |
| CommandSession.Recognize | crates/vinpst-asr/src/command.rs:348-380 | the helper is sent one committed audio line from which the samples can be read back, then the finish line; the answer for every outcome of the process |
| CommandSession.CommandRecognitionSession.PushPcm | crates/vinpst-asr/src/command.rs:639-659 | accepted exactly when writable and the layout does not change under audio; keeps the session's invariant |
| CommandSession.CommandRecognitionSession.PushAudio | crates/vinpst-asr/src/command.rs:661-670 | accepted exactly when writable; keeps the invariant |
| CommandSession.CommandRecognitionSession.Finish | crates/vinpst-asr/src/command.rs:672-688 | at most one helper process over the session's life, sent exactly the accepted audio; the events are the runner's or none |
| CommandSession.CommandRecognitionSession.Cancel | crates/vinpst-asr/src/command.rs:690-694 | pending events are dropped for good |
| CommandSession.CommandRecognitionSession.PollEvents | crates/vinpst-asr/src/command.rs:696-698 | events are handed out once, and what all polls took ends in Completed |
| RemoteText.ConstantTimeEqIsEquality | crates/vinpst-daemon/src/remote.rs:141-152 | the fold without an early exit accepts exactly the key |
| RemoteText.CurrentTextRefinesHistory | crates/vinpst-daemon/src/remote.rs:203-412 | after any history the pending text is that of the last update nothing has settled, else empty |
| RemoteText.TranscriptsRefineHistory | crates/vinpst-daemon/src/remote.rs:375-406 | a call emits a transcript exactly when the history says it delivers an update: committed, delta and completed with equal text under one item id, only while the output is connected |
| RemoteText.CommittedRefinesHistory | crates/vinpst-daemon/src/remote.rs:322-406 | a call answers `committed` exactly when it delivers an update, or is a commit while the history leaves nothing to deliver |
| RemoteText.CommitIsAnsweredWithoutAnOutput | crates/vinpst-daemon/src/remote.rs:362-373 | the protocol answers a first commit although no output client has connected |
| RemoteText.NoUpdateIsDeliveredTwice | crates/vinpst-daemon/src/remote.rs:375-406 | a later delivery is of an update made after the earlier delivery |
| RemoteText.OutputFlagIsOutputUp | crates/vinpst-daemon/src/remote.rs:247-292 | the flag is up exactly when the output connected and has not disconnected since |
| RemoteText.IdsAreUnique | crates/vinpst-daemon/src/remote.rs:362-411 | over a whole run no event id repeats, none equals an item id, and an item id is shared only within one delivery |
| RemoteText.ReplayIsTheOutputStatus | crates/vinpst-daemon/src/remote.rs:213-292 | replaying what the accepted input client was sent since its init always gives the server's true output status |
| RemoteText.RefusedConnectsChangeNothing | crates/vinpst-daemon/src/remote.rs:213-269 | a refused connect changes neither flag nor the pending text, and gets no init |
| RemoteText.TheInputHears | crates/vinpst-daemon/src/remote.rs:213-293 | for every call of every history, the exact messages to the input side: the answer to a connect by key, client and output status, and news of an output only while a client is there |
| RemoteText.TheOutputHears | crates/vinpst-daemon/src/remote.rs:247-412 | for every call, the messages to the output side: a refusal, its own session back, an empty commit, the delivery of the pending update, or nothing |
| RemoteText.TheDeadlineFollows | crates/vinpst-daemon/src/remote.rs:271-355 | for every call, whether the deadline is set, called off or left alone |
| RemoteText.RemoteTextProtocol.Connect | crates/vinpst-daemon/src/remote.rs:213-245 | new state and messages for a wrong key, a second client and an accepted one |
| RemoteText.RemoteTextProtocol.ConnectRealtime | crates/vinpst-daemon/src/remote.rs:247-269 | new state and messages, an id being spent only on a refusal |
| RemoteText.RemoteTextProtocol.ReleaseInput | crates/vinpst-daemon/src/remote.rs:271-278 | the pending text survives |
| RemoteText.RemoteTextProtocol.ReleaseOutput | crates/vinpst-daemon/src/remote.rs:280-293 | the pending text is dropped and a connected input client told |
| RemoteText.RemoteTextProtocol.HandleInputEvent | crates/vinpst-daemon/src/remote.rs:295-320 | new state and effects for every event type |
| RemoteText.RemoteTextProtocol.HandleOutputEvent | crates/vinpst-daemon/src/remote.rs:322-349 | new state and effects for every event type |
| RemoteText.RemoteTextProtocol.Fire | crates/vinpst-daemon/src/remote.rs:352-355 | the debounce deadline delivers like a flush |
| RemoteText.RemoteTextProtocol.FinalResultEffects | crates/vinpst-daemon/src/remote.rs:375-406 | four fresh ids, the item's being the lowest, and the pending text cleared |
| RemoteServer.OnlyTheClientsAreHeard | crates/vinpst-daemon/src/remote/server.rs:387-435 | in every interleaving of sockets and deadline tasks the server runs the protocol on one history, and the sockets it reads are exactly the connected clients: a refused or stale one can neither send nor disconnect anybody |
| RemoteServer.EveryClientIsHeard | crates/vinpst-daemon/src/remote/server.rs:387-435 | in every run each connect, each message of a client, each close of one and each live deadline makes its one protocol call, and nothing else makes any |
| RemoteServer.AConnectIsAcceptedIffFree | crates/vinpst-daemon/src/remote/server.rs:387-435 | a socket becomes the client exactly with the right key and while there is none |
| RemoteServer.ClientNumbersAreNew | crates/vinpst-daemon/src/remote/server.rs:387-435 | every socket that opens gets a number no other has |
| RemoteServer.OutputEventsComeWhileUp | crates/vinpst-daemon/src/remote/server.rs:665-685 | in every run an output event is applied, and a commit answered, only while the output is connected |
| RemoteServer.ADeadlineDeliversItsOwnUpdate | crates/vinpst-daemon/src/remote/server.rs:437-450 | a deadline that passes its generation check is that of the last scheduling update; with text and output it delivers exactly that update |
| RemoteServer.ADeadlineActsIffNotSuperseded | crates/vinpst-daemon/src/remote/server.rs:437-450 | a deadline that wakes makes its one protocol call if and only if nothing has replaced, cancelled or used it since its own update; otherwise it changes nothing but being asleep |
| RemoteServer.APendingUpdateIsDueIffUndisturbed | crates/vinpst-daemon/src/remote/server.rs:394-450 | a pending update with text has its deadline sleeping if and only if no flush came since and the input client has stayed |
| RemoteServer.AnUpdateCanBeStranded | crates/vinpst-daemon/src/remote/server.rs:437-450 | for every text a run with that text pending, the output up and no deadline asleep |
| RemoteServer.StepKeepsInv | crates/vinpst-daemon/src/remote/server.rs:452-480 | opening, sending, closing and waking keep the one live deadline and the client sockets in step with the protocol |
| RemoteLiveness.EveryUpdateIsDecided | crates/vinpst-daemon/src/remote/server.rs:394-450 | under every infinite schedule in which sleeping deadlines wake, every update with text is decided: the first later update, flush or disconnect comes, and a flush while the output is up delivers exactly it |
| RemoteLiveness.AFairScheduleExists | crates/vinpst-daemon/src/remote/server.rs:437-450 | such schedules exist, with an update in them |
| LivePartials.AtMostOneLatePartial | crates/vinpst-daemon/src/dbus_service.rs:389-431 | in every interleaving an emitter sends at most one text after its generation was cancelled or superseded |
| LivePartials.EmitterNeverRepeatsOrWritesLate | crates/vinpst-daemon/src/dbus_service.rs:412-428 | an emitter never repeats the text last heard for its generation, the start's included, and writes `last_emitted` only while current |
| LivePartials.ACurrentEmitterSendsEveryChange | crates/vinpst-daemon/src/dbus_service.rs:389-431 | in every run, while its generation is current and nothing failed, an emitter has sent exactly the texts it polled and decided on, in order, without those that repeat the one right before, the start's text being before all; between ticks that is everything it polled |
| LivePartials.AnEmitterSendsNothingElse | crates/vinpst-daemon/src/dbus_service.rs:389-431 | whatever happens, what it sent are the changes among the first texts it polled |
| LivePartials.AnEmitterEndsForAReason | crates/vinpst-daemon/src/dbus_service.rs:389-431 | an emitter of the current generation has ended only if a poll or a signal failed |
| LivePartials.ATurnBringsTheEmitterOn | crates/vinpst-daemon/src/dbus_service.rs:389-431 | every turn of an emitter brings it closer to its next tick, it polls only if current at the tick, and a failure ends it at once |
| LivePartials.AStopSendsUnlessWritten | crates/vinpst-daemon/src/dbus_service.rs:482-532 | in every run a stop that has cancelled sends its text exactly if it has one and it is not the one last written back for that generation |
| LivePartials.EveryGenerationIsOfItsStart | crates/vinpst-daemon/src/dbus_service.rs:439-480 | a generation begins with the text of the one start that holds the lock |
| LivePartials.EveryStartTextIsSent | crates/vinpst-daemon/src/dbus_service.rs:439-480 | and only after that text has been sent |
| LivePartials.StopRepeatsIffUnwritten | crates/vinpst-daemon/src/dbus_service.rs:482-532 | in every run a stop that ends with the text last heard for the generation it cancelled sends it again if and only if the emitter has sent it and not written it back |
| LivePartials.AStopCanRepeatALatePartial | crates/vinpst-daemon/src/dbus_service.rs:412-428 | for every text a run in which both happen |
| LivePartials.StepKeepsInv | crates/vinpst-daemon/src/dbus_service.rs:389-532 | every step of start, stop and every emitter keeps the invariant behind these |
| LivePartials.LivePartialEmissionState.Begin | crates/vinpst-daemon/src/dbus_service.rs:62-66 | opens the generation that the system of emitters goes on from, with the start's partial as the last text emitted |
| LivePartials.LivePartialEmissionState.Cancel | crates/vinpst-daemon/src/dbus_service.rs:68-71 | closes the generation as the system of emitters does and hands out what it had emitted |
| ConfigPersistence.ConfigIsAlwaysWhole | crates/vinpst-config/src/persistence.rs:100-162 | with any number of writers, every call failing at will, writers dying and power lost between any two steps, the config path holds the original or one valid call's complete document, and a call that returned Ok has put its document there; for harmless backups, and an original on disk or no power loss |
| ConfigPersistence.OnlyOkPublishes | crates/vinpst-config/src/persistence.rs:100-162 | for all files and all calls, whatever is backed up where: a call that returned Ok has renamed its document onto the config exactly once and one that returned an error never has |
| ConfigPersistence.TemporaryFilesAreNotShared | crates/vinpst-config/src/persistence.rs:174-203 | for all files and all calls, whatever is backed up where: no two live writers hold the same temporary file |
| ConfigOutcomes.ACallFailsIffItHasAFault | crates/vinpst-config/src/persistence.rs:100-203 | for all files, calls and runs: a call that returns, returns an error if and only if it is invalid, one of its own file-system calls failed, it backs up with no config present, or 32 of its temporary names were taken; and which error |
| ConfigOutcomes.ACallSucceedsIffItHasNoFault | crates/vinpst-config/src/persistence.rs:100-203 | a call that returns, returns Ok if and only if there was none of these |
| ConfigOutcomes.AHealthyCallReturnsOk | crates/vinpst-config/src/persistence.rs:100-162 | so on a healthy disk every valid call that returns, with or without a backup, returns Ok |
| ConfigOutcomes.ALiveCallCanReturn | crates/vinpst-config/src/persistence.rs:100-203 | from every reachable state a live call returns after finitely many successful moves of its own |
| ConfigOutcomes.NoNameIsTriedTwice | crates/vinpst-config/src/persistence.rs:174-203 | no call tries a temporary name twice, whatever other writes of its process do: 32 taken names are 32 different ones |
| ConfigPersistence.TheLastPublisherWins | crates/vinpst-config/src/persistence.rs:148-161 | while the power stays on and the backups are harmless, what readers find is the original and then the documents in the order of their renames, each call renaming at most once; the config is the document of the last rename |
| ConfigPersistence.PowerLossCanUndoAnOk | crates/vinpst-config/src/persistence.rs:148-161 | a run in which a call returned Ok and power loss brings the original back |
| ConfigPersistence.SafeIffBackupsAreHarmless | crates/vinpst-config/src/persistence.rs:100-162 | for all files at the start and all calls: the config path is safe in every run if and only if the original is on disk and no valid call backs up onto it or onto a free temporary name of a valid call, while there is a config to copy |
| ConfigPersistence.AdjacentBackupsAreHarmless | crates/vinpst-config/src/persistence.rs:89-93 | backups at paths like the adjacent one are all harmless |
| ConfigPersistence.NoTemporaryFileSurvives | crates/vinpst-config/src/persistence.rs:121-156 | for all files and all calls, whatever is backed up where: without deaths, power loss and failed removals every temporary file that was not there before is some call's backup or belongs to a call that has not returned |
| ConfigPersistence.BackupHoldsTheReplacedDocument | crates/vinpst-config/src/persistence.rs:135-156 | while the power stays on, a single writer's Ok leaves its document in the config and the replaced one in the backup; an error leaves the config as it was, and an error before the copy the old backup too |
| ConfigPersistence.TemporaryNamesAreDistinct | crates/vinpst-config/src/persistence.rs:174-181 | a temporary name determines its process and sequence number and is neither the config nor its backup path |
| ConfigPersistence.StepKeepsInv | crates/vinpst-config/src/persistence.rs:100-203 | every step, death and power loss keeps the invariant behind these |
| VadRanges.PaddedSegmentRanges | crates/vinpst-asr/src/sherpa_vad.rs:283-304 | every range is non-empty and in bounds, for all segments and saturating paddings |
| VadRanges.PaddedRangeCoversItsSegment | crates/vinpst-asr/src/sherpa_vad.rs:283-304 | a kept range covers its segment as far as it is in bounds; only a segment with nothing in bounds is dropped |
| VadRanges.EverySpeechSampleIsKept | crates/vinpst-asr/src/sherpa_vad.rs:283-313 | every in-bounds sample of every segment is cut out, whatever the spacing |
| VadRanges.TheCutIsWhatIsNear | crates/vinpst-asr/src/sherpa_vad.rs:283-313 | for all segments, paddings and guards a sample is cut out if and only if it is within the padding of some segment, or leads the very first one by at most the padding and the guard of silence |
| VadRanges.SegmentsAreTheReports | crates/vinpst-asr/src/sherpa_vad.rs:237-246 | each report of some speech is one segment with its start and length, in order, and no other report is one |
| VadRanges.WellSpacedCutIsASubsequence | crates/vinpst-asr/src/sherpa_vad.rs:283-313 | segments in order with gaps of twice the padding give disjoint increasing ranges, and the cut is a subsequence as long as the ranges together |
| VadRanges.CutIsASubsequenceIffWellSpaced | crates/vinpst-asr/src/sherpa_vad.rs:283-313 | for all segments, paddings and guards: the cut is a subsequence of the audio if and only if the kept segments are in order with gaps of twice the padding |
| VadRanges.CloseSegmentsRepeatSamples | crates/vinpst-asr/src/sherpa_vad.rs:283-313 | two segments 2 samples apart with padding 5 whose cut holds a sample twice |
| VadRanges.CollectRanges | crates/vinpst-asr/src/sherpa_vad.rs:307-313 | collecting never slices out of range and gives the samples at the ranges' indices |
| VadRanges.Trim | crates/vinpst-asr/src/sherpa_vad.rs:220-279 | the cut for the non-empty detected segments, or all the audio at another rate or when the cut is empty; audio never becomes empty |
| ReleaseManifest.ParseOfPrinted | scripts/release/release_manifest.py:68-76 | parsing the printed checksums succeeds exactly for names in order without repetition, and then gives the list back |
| ReleaseManifest.ParseChecksumFile | scripts/release/release_manifest.py:189-202 | the loop with its two final checks computes the parse, the set comparison finding exactly the repeated names |
| ReleaseManifest.LineParsesIffItIsADigestAndAName | scripts/release/release_manifest.py:189-198 | a line is accepted exactly if it is a digest, two blanks and a name without a slash or backslash |
| ReleaseManifest.FileParsesIffItIsASortedList | scripts/release/release_manifest.py:189-202 | a checksum file is accepted as these entries exactly if each line is one of them, in order, and the names strictly increase |
| ReleaseManifest.VerifyBundle | scripts/release/release_manifest.py:205-308 | accepts exactly the bundles that are consistent with their manifest |
| ReleaseManifest.CheckArtifacts | scripts/release/release_manifest.py:246-278 | the loop over name and role sets accepts exactly well-formed artifacts with distinct names and distinct roles |
| ReleaseManifest.StagingVerifiesIffFilled | scripts/release/release_manifest.py:114-142 | the bundle built from admitted sources passes the self-check if and only if it has an artifact and no package field is empty |
| ReleaseManifest.CheckSources | scripts/release/release_manifest.py:84-106 | accepts exactly safe, unreserved, distinct names with distinct roles |
| ReleaseManifest.Assemble | scripts/release/release_manifest.py:79-142 | succeeds exactly for admitted non-empty sources and filled package fields; what it publishes is verified |
| ReleaseManifest.SameManifestSameArtifacts | scripts/release/release_manifest.py:205-308 | two verified bundles with one manifest hold the same files, but for the manifest's text and a signature, unless two of their files of one size share a digest |
| ReleaseManifest.ChecksumsListTheTrueDigests | scripts/release/release_manifest.py:205-308 | SHA256SUMS of a verified bundle lists every file but the metadata with its true digest, and nothing else |
| ReleaseManifest.SameFilesSameManifest | scripts/release/release_manifest.py:205-308 | conversely the files of a verified bundle determine its manifest, up to the package and the roles |
| ReleaseManifest.NamesAndRolesAreUsable | scripts/release/release_manifest.py:246-278 | the artifacts of a verified bundle have admissible names in strictly increasing order and admissible, distinct roles |
| ReleaseManifest.SortAscends | scripts/release/release_manifest.py:123-126 | sorting records with distinct names makes the names strictly increase |
| ExecQuoting.QuotedArgumentIsOneWord | crates/vinpst-cli/src/paths.rs:65-75 | reading the quoted value by sections 2.2.1 and 2.2.2 of the POSIX Shell Command Language gives exactly one word, the value, whichever branch produced it |
| ExecQuoting.QuotedReadsAsTheValue | crates/vinpst-cli/src/paths.rs:65-75 | the same anywhere in a line where a word may begin, and reading goes on outside quotes |
| ExecQuoting.CommandLineReadsAsItsArguments | crates/vinpst-cli/src/commands/system.rs:551-559 | the quoted arguments joined by blanks read back as exactly that list of arguments |
| ExecQuoting.OneLineIffNoLineBreak | crates/vinpst-cli/src/commands/system.rs:551-559 | the command fits on the one line it is written to exactly when no argument has a line break |
| ExecQuoting.ServiceGetsWhatIsLeft | crates/vinpst-cli/src/commands/system.rs:551-559 | for all arguments, what a service gets when the escapes of the Desktop Entry Specification ("Possible value types") are undone before the shell rules: each argument without its escapes, or nothing if one has a quote, a bad escape or a line break |
| ExecQuoting.ServiceGetsItsArgumentsIffNothingToEscape | crates/vinpst-cli/src/commands/system.rs:551-559 | the service gets exactly the arguments if and only if none has a quote, a backslash or a line break |

## Left out

- PipeWire, sherpa-onnx, the HTTP transport, helper processes and the D-Bus connection: their outcomes are parameters of the steps that call them, and any outcome is allowed.
- Counters: event, item, idle and partial generations are natural numbers; wrap-around at 2^64 is not modelled.
- CaptureSystem.CaptureIsWhatWasHeard: about what is appended; a buffer whose callback is in flight at a recording's end is not. The live chunk callback, timing fields, thread panics and closed channels other than a failed schedule are not modelled.
- CaptureWorker.FinishHandsOutTheSamples: a capture's source is the target of its stream; the name made from it, under which the default target and an object of that name coincide, is not modelled.
- ConfigOutcomes.ALiveCallCanReturn: that a call makes its moves is up to its process; it says that finitely many suffice.
- CaptureCallback.ACaptureIsOffByTheBuffersInFlight: steps at the reads and writes of the two shared cells; the data race on the sample buffer itself is not modelled.
- CaptureOverlap.EveryCaptureIsAccountedFor: buffers are their contents, so two captures with a buffer in flight at each end are not told apart from exact ones; `CaptureCallback` numbers the buffers and does. A worker's command is one step, in which callbacks may append and be caught; an append between the two halves of a Finish is one before it.
- CaptureSystem.FacadeAgreesWithWorker: a worker thread that fails during setup is one failed `Spawn`; its leftover timer thread is not modelled.
- Pcm.WithSpec: lengths are not bounded by the address space, and buffers are assumed to have been built by the checked constructors; the unchecked deserialization of `PcmBuffer` is left out.
- Pcm gain and normalization: 32-bit float rounding has no faithful simple model here.
- WavCodec.EncodePcm16leWav: error texts leave out the interpolated numbers; so do the session errors.
- RemoteSession.OneRequestWithAllTheAudio: of the request only the WAV payload is modelled; URL, model, language, prompt and key are copied from the configuration.
- RemoteSession.Transcription: a response body is a datatype (no JSON, or an optional text); JSON parsing is not modelled.
- CommandStreaming.ParseLine: a line is a datatype of the fields the parser reads; splitting stdout into lines and JSON parsing are not modelled.
- CommandStreaming.FailsIffThereIsNoEvent: about lines that are all well formed; the first line that is not JSON fails the whole output, which is stated on ParseStdout.
- CommandSession.Recognize: only the streaming runner; the batch and JSON runners add no state.
- RemoteText.RemoteTextProtocol: JSON events are a type and the field that is read, ids are numbers without their prefix; the settings parsers are left out.
- RemoteServer.StepKeepsInv: the outgoing queues, unparsable messages and the server's shutdown are left out; how long a deadline sleeps is arbitrary.
- LivePartials.StepKeepsInv: the normal and the command start handler share their steps and are one; the texts the runtime returns are arbitrary, and recording status changes only show as a poll that ends the emitter.
- ConfigPersistence.BackupHoldsTheReplacedDocument: for one writer with a backup path that is neither the config nor a temporary name it may take, and no power loss; with several writers two copies may interleave in the backup file, which carries no promise. Permissions, symbolic links and the config validators are left out.
- ConfigPersistence.TheLastPublisherWins: for calls whose backups are harmless, as a copy onto the config path is no rename, and while the power stays on, as power loss may undo the last rename.
- ConfigPersistence.ConfigIsAlwaysWhole: for calls whose backups are harmless and, if power may fail, an original on disk, which SafeIffBackupsAreHarmless shows to be exactly the calls and originals that are safe. Renaming is atomic, and power loss may undo renames but not a synchronized file's content.
- VadRanges.Trim: the detector's windowing and the log line are left out; `usize` has 64 bits.
- ReleaseManifest.Assemble: replacing an existing output directory, the containment check of sources and the command line are left out; the role pattern is a precondition because argument parsing checks it.
- ReleaseManifest.VerifyBundle: the manifest's JSON shape checks are typing here; file contents are strings of single-byte characters, SHA-256 is any function to 64 hex digits.
- ExecQuoting.CommandLineReadsAsItsArguments: reads the command by the POSIX rules alone; ServiceGetsWhatIsLeft adds the escapes of a service file. What a bus makes of a file with a stray line is not modelled: such an entry gives the service nothing here.
- CaptureLiveness.EveryCallReturns: fairness is assumed, and that a foreign call returns; a thread that panics or a channel that closes is not modelled.
- RemoteLiveness.EveryUpdateIsDecided: assumes that a deadline asleep wakes at some time; an update met by a flush while the output is down counts as decided, and AnUpdateCanBeStranded shows that it may then stay pending.
- ExecQuoting.QuotedArgumentIsOneWord: expansions and operators are not read; the reader refuses their characters outside quotes, so the statement is stronger for the values at hand.
- Runtime recording and reload transitions, the fcitx add-on, proxies, packaging renderers and CLI printing: the first two rest on code that is not part of this model, the others add only easy members.
