# Verification of the ArtInChip LVGL port's ownership protocols, clocks and planners

This project models, in Dafny, the stateful cores of the port and proves what they promise. Each
module follows one file of the port; specification functions state the behaviour on values, classes
and methods with loops carry the code's own steps and are proved against them, and the main results
are lemmas about every input, every run or every reachable state.

- **SPI display pipeline** (`SpiFrame`, `SpiTransfer`, `SpiPipeline`, `SpiPipelineRun`,
  `SpiPipelineLaws`, `SpiPipelineResults`, `SpiPipelineProgress`, `SpiPipelineRing`, `SpiDisplay`,
  `SpiDisplayPipe`, `SpiDisplayRun`, `SpiDisplayMachine`). A two-slot ring without locks between the
  UI and one worker, over a transfer with one or two DMA buffers and a sticky fault. `SpiPipeline`
  has one step per atomic load or store of each thread, so a run is any interleaving;
  `SpiPipelineRing` has the operations as methods on the object's fields, each proved to be such
  steps in a row. `SpiDisplayMachine` runs the display on that machine. The transport log records
  every call with the image it was given.
- **Animated PNG** (`ApngContainer`, `ApngReader`, `ApngRules`, `ApngRuled`, `ApngFramed`,
  `ApngOpens`, `ApngPrinted`, `ApngEncoded`, `ApngAccepted`, `ApngRoundTrip`, `ApngCopied`,
  `ApngCompose`, `ApngLayers`, `ApngCanvas`, `ApngTimeline`, `ApngTimelineLaws`,
  `ApngTimelineExactly`, `ApngStream`, `ApngStreamExactly`). The validator, the enumerator and the
  writer of standalone PNGs, after the PNG Specification (Third Edition), sections 5.3 and 11.3.6,
  with acceptance stated on the sequence of chunks alone; the compositor with its one scratch
  rectangle; the rational-rate clock; and the stream over all three.
- **Video frame ownership** (`PlayerAllocator`, `PlayerAllocated`, `PlayerTable`, `PlayerSession`,
  `PlayerMailbox`, `PlayerRun`, `PlayerInvariant`, `PlayerLaws`, `PlayerSections`, `PlayerDrain`,
  `PlayerConserved`, `PlayerDeferred`). The eight-slot mailbox between worker, UI and readers over
  the budgeted frame table and the SDK session, one mutex section or private operation per step.
- **Decoded-image cache** (`MppCache`, `MppCacheExactly`, `MppCacheList`). Least recently used
  eviction with references, limits and deferred invalidation, on values and as an intrusive doubly
  linked list on the heap.
- **GE2D strips** (`Ge2dStripes`, `Ge2dExactly`) and **YUV frames** (`Yuv`, `YuvExactly`,
  `YuvColour`, `YuvCrop`). Planners that must keep meaning.
- **CAN capture codec** (`CanCapture`, `CanExactly`). Run-length coding with a wrapping sequence
  number.

`dafny verify dfyconfig.toml` checks all of it.

## Model

| member | source | states |
|---|---|---|
| SpiPipelineLaws.EveryRunIsAQueue | port/lv_aic_spi_pipeline.c:31-153 | In every interleaving of producer and worker, with any answers of the session: taken <= released <= picked <= accepted <= taken + 2, and releases and completions each name the accepted jobs in submission order, a job's release before its completion |
| SpiPipelineLaws.CompletedMeansShown | port/lv_aic_spi_pipeline.c:36-75 | A COMPLETED/OK event means that the wait for that frame's own start succeeded, and that the start carried the packed image of the frame as it was when accepted; a SOURCE_RELEASED/OK event means that the transport took the frame; the converse is ResultsExactly |
| SpiPipelineResults.ResultsExactly | port/lv_aic_spi_pipeline.c:36-75 | In every reachable state the converse too, for completions and for releases: a frame is reported OK if and only if the log has its own start, taken (release) and waited for (completion); INVALID if and only if the conversion refused it; and FAULT, or a latched fault, only after a call that failed |
| SpiPipelineResults.InvalidMeansUnpackable | port/lv_aic_spi_pipeline.c:36-62 | Without an installed transform INVALID is reported only for a frame that the packer cannot take |
| SpiPipelineLaws.UnderDma | port/lv_aic_spi_pipeline.c:31-75 | Without a fault a transfer is outstanding exactly for one job, known at every position of the worker, and the buffer under DMA holds exactly that job's packed image from its start to its wait, also while the next frame is handled |
| SpiPipelineLaws.SilentAfterFault | port/lv_aic_spi_pipeline.c:36-75 | After a latched fault no step of either thread calls transform, start or wait again, and the fault stays |
| SpiPipelineLaws.ExitLosesNothing | port/lv_aic_spi_pipeline.c:76-95 | When the worker has published its exit every accepted job was run, each slot is empty or done and none owns the DMA; a successful close means that all counts are equal |
| SpiPipelineLaws.TakeDelivers | port/lv_aic_spi_pipeline.c:124-141 | After exit every take delivers exactly one further event while one is owed |
| SpiPipelineProgress.TakeExactly | port/lv_aic_spi_pipeline.c:124-141 | At any time a take delivers the release of the oldest unreleased job if its running has ended, else the completion of the oldest untaken job if it was released and does not own the transport, else nothing |
| SpiPipelineProgress.WorkerFinishes | port/lv_aic_spi_pipeline.c:31-95 | Whatever the session answers, the worker alone brings every reachable state, within at most 811 steps, to one in which every accepted job was run and none owns the transport |
| SpiPipelineProgress.IdleDelivers | port/lv_aic_spi_pipeline.c:124-141 | When all was run, a take delivers nothing exactly when every accepted job was released and completed |
| SpiPipelineLaws.ShutdownCompletes | port/lv_aic_spi_pipeline.c:124-153 | After exit one take per owed event delivers all of them, and then, and only then, close succeeds |
| SpiPipelineLaws.CloseExactly | port/lv_aic_spi_pipeline.c:147-153 | After exit close succeeds exactly when every accepted job's completion was taken |
| SpiPipelineRun.StepKeeps | port/lv_aic_spi_pipeline.c:31-153 | Every atomic step of either thread keeps the invariant that ties slots, indices, active slot, transport log and delivered events to the queue of accepted jobs |
| SpiPipelineRing.RunsKeep | port/lv_aic_spi_pipeline.c:31-75 | An uninterrupted run_next or drain is a sequence of the worker's atomic steps and keeps the invariant of all interleavings |
| SpiPipelineRing.Ring.RunNext | port/lv_aic_spi_pipeline.c:31-62 | run_next on the object's fields does what the atomic steps picking, marking, converting, settling, judging, abandoning and publishing do in a row, and reports whether a slot was queued; its results are those that ResultsExactly characterises |
| SpiPipelineRing.Ring.DrainActive | port/lv_aic_spi_pipeline.c:63-75 | drain on the fields is the worker's emptying, faulting and finishing steps in a row |
| SpiPipelineRing.Ring.Submit | port/lv_aic_spi_pipeline.c:112-123 | submit on the fields is the producer's atomic steps in a row, with the same answer |
| SpiPipelineRing.Ring.TakeEvent | port/lv_aic_spi_pipeline.c:124-141 | take on the fields delivers the event that the producer's atomic steps deliver, or none |
| SpiPipelineRing.Ring.Close | port/lv_aic_spi_pipeline.c:147-153 | close on the fields answers what the producer's atomic steps answer |
| SpiTransfer.SubmitKeeps | common/lv_aic_spi_transfer.c:50-82 | Every submission keeps the call discipline; FAULT is answered exactly when a fault is latched; a receipt is given exactly when the previous transfer was verified in this call; after OK the frame's own start is outstanding with its packed image |
| SpiTransfer.SubmitAnswersExactly | common/lv_aic_spi_transfer.c:50-82 | What a submission answers, case by case: BUSY, FAULT, the refusal of an installed transform, INVALID for what cannot be packed, and OK exactly when the session is idle and unfaulted, an outstanding wait succeeds, the conversion succeeds and the transport takes the frame |
| SpiTransfer.SubmitSays | common/lv_aic_spi_transfer.c:50-82 | The transport calls of one submission carry its frame's tag and say exactly what it answered: a start was taken for OK, a conversion refused for INVALID |
| SpiTransfer.InstallsExactly | common/lv_aic_spi_transfer.c:25-39 | A transform or a second buffer is installed exactly once, before the first submission, without a fault, the buffer exactly when it holds an image; nothing else changes |
| SpiTransfer.DrainKeeps | common/lv_aic_spi_transfer.c:86-91 | A drain succeeds exactly when nothing failed before and an outstanding wait succeeds; otherwise it faults for good |
| SpiTransfer.WholeRun | common/lv_aic_spi_transfer.c:13-97 | Over every run the call log obeys the discipline: no call after a failure, no conversion into the buffer under DMA, that buffer still holds what it was started with, and every start but possibly the latest was verified, in order |
| SpiTransfer.StartsAreVerified | common/lv_aic_spi_transfer.c:40-91 | Under the discipline the starts are the verified ones in order, followed by at most one outstanding |
| SpiTransfer.RunsExtend | common/lv_aic_spi_transfer.c:40-91 | A longer run only extends the log of transport calls, and not at all after a failure |
| SpiTransfer.Session.Submit | common/lv_aic_spi_transfer.c:50-82 | The imperative submission over the two byte buffers computes the specified new state, answer and receipt |
| SpiTransfer.Session.Settle | common/lv_aic_spi_transfer.c:86-91 | The imperative drain computes the specified new state and answer |
| SpiTransfer.Session.InstallBackBuffer | common/lv_aic_spi_transfer.c:31-39 | The back buffer is installed exactly when none is, nothing started or failed and it holds a frame |
| SpiFrame.PackRgb565 | common/lv_aic_spi_frame.c:3-36 | The nested loops refuse exactly the disallowed geometries, and else write exactly the packed image, leaving the rest of the buffer alone |
| SpiFrame.ReadsTurnedPixel | common/lv_aic_spi_frame.c:21-31 | The four coordinate cases of the code are nought to three clockwise quarter turns |
| SpiFrame.SampleInside | common/lv_aic_spi_frame.c:24-24 | Nearest sampling never leaves the source image |
| SpiFrame.BytesOfPixel | common/lv_aic_spi_frame.c:31-33 | The two bytes of each output pixel, in the asked byte order, lie at its row-major offset and nowhere else |
| SpiFrame.AllowedExactly | common/lv_aic_spi_frame.c:7-20 | Source and output are taken exactly when sizes and angle are allowed, a row holds its pixels, and every pixel of the source and every byte of the image lies in its buffer |
| SpiFrame.CornersTurn | common/lv_aic_spi_frame.c:21-31 | At the same size and without turning the image is a copy, and each quarter turn brings its own corner to the top left |
| SpiDisplay.WholeRun | port/lv_aic_spi_display.c:25-222 | Over every run of flushes, blits, polls, deletion and close: jobs in use = frames in flight <= 2; accepted = completed + failed + in flight below saturation; while the LVGL display exists each flush was answered exactly once, but for at most one whose source is still to be released; a closed display consumed every completion |
| SpiDisplay.FlushKeeps | port/lv_aic_spi_display.c:90-111 | One flush is answered at once, or its frame is accepted and the source stays owed; after the wait for room it is never refused as BUSY |
| SpiDisplay.SubmitKeeps | port/lv_aic_spi_display.c:68-84 | A submission is BUSY exactly while two jobs are in flight, and accepting one keeps jobs, counters and owed flushes consistent |
| SpiDisplay.BlitKeeps | port/lv_aic_spi_display.c:186-196 | A claimed display blits one frame at a time and answers BUSY exactly while one is in flight |
| SpiDisplay.PollExactly | port/lv_aic_spi_display.c:168-169 | A poll leaves a claimed blit to its own report; otherwise it takes every event that is there and says whether nothing is in flight any more |
| SpiDisplay.BlitTakeExactly | port/lv_aic_spi_display.c:197-201 | A claimed blit is reported exactly once its completion was collected, with that completion's result |
| SpiDisplay.CollectReports | port/lv_aic_spi_display.c:39-59 | Collecting reports the result of the latest completion that it found |
| SpiDisplay.ClaimKeeps | port/lv_aic_spi_display.c:173-185 | A new claim succeeds only with nothing in flight, and never without an LVGL display |
| SpiDisplay.CloseKeeps | port/lv_aic_spi_display.c:208-222 | A successful close leaves nothing in flight |
| SpiDisplay.Display.CollectEvents | port/lv_aic_spi_display.c:39-59 | The polling loop over the object's fields handles every deliverable event as specified |
| SpiDisplay.Display.FlushFrame | port/lv_aic_spi_display.c:90-111 | The flush callback over the fields computes the specified new state |
| SpiDisplay.Display.SubmitFrame | port/lv_aic_spi_display.c:68-84 | submit over the fields computes the specified new state and answer |
| SpiDisplay.Display.CloseDisplay | port/lv_aic_spi_display.c:208-222 | close over the fields computes the specified new state and answer |
| SpiDisplayPipe.EveryStepIsAPipeStep | port/lv_aic_spi_display.c:39-88 | Every atomic step of the pipeline is a step of the queue the display works with: the worker never moves it, an event delivered is the next one due, and BUSY, INVALID and FAULT come only for their reasons |
| SpiDisplayRun.TakeCall | port/lv_aic_spi_pipeline.c:124-141 | A take interrupted by any worker steps delivers nothing, the release due or the completion due; after exit, nothing only when everything was delivered |
| SpiDisplayRun.SubmitCall | port/lv_aic_spi_pipeline.c:112-123 | A submission interrupted by any worker steps is accepted as the newest job, or refused with the queue unchanged, for the queue's own reasons or a latched fault |
| SpiDisplayRun.SubmitComposes | port/lv_aic_spi_display.c:68-84 | The display's submission on the pipeline itself answers what its specification on the queue answers |
| SpiDisplayRun.LoopRefines | port/lv_aic_spi_display.c:39-59 | The display's polling loop on the pipeline itself, interrupted anywhere, does what its specification does on the queue; after exit it ends with nothing in flight |
| SpiDisplayRun.CloseComposes | port/lv_aic_spi_display.c:208-222 | Closing the display closes the pipeline: it succeeds exactly when all events were collected and the pipeline closed, always once the worker has exited; then nothing is in flight, every event was delivered, no slot owns the DMA and every flush was answered exactly once |
| SpiDisplayMachine.OperationFollows | port/lv_aic_spi_display.c:39-222 | Every operation of the display, run on the pipeline with its calls interrupted anywhere, does what its specification does with the events and answers that the pipeline gives, and the two agree on the queue afterwards |
| SpiDisplayMachine.WholeRun | port/lv_aic_spi_display.c:25-222 | Over every sequence of flushes with their waits, claims, blits, polls, deletion and close, with worker and application steps inside and between them, in one reachable state: the display's account holds, its counters count the pipeline's accepted frames and results, results come in order, each OK one was waited for with that frame's own packed image, the buffer under DMA holds the frame under way, and a closed display left nothing undelivered |
| ApngRoundTrip.StandaloneRoundTrip | common/lv_aic_apng.c:53-177 | Every frame enumerated from an accepted document is extracted exactly when the buffer holds png_bytes, into exactly that many bytes; the result is accepted as a static one-frame PNG with the same colour chunks and payload, and extracting it again reproduces the bytes |
| ApngRoundTrip.FrameIsExtracted | common/lv_aic_apng.c:142-177 | Extraction succeeds for every enumerated frame with enough room |
| ApngRoundTrip.CopyReopens | common/lv_aic_apng.c:76-136 | The extracted file passes the validator as a static document with exactly one frame, the copied prefix and the copied pieces |
| ApngRoundTrip.CopyExtractsItself | common/lv_aic_apng.c:142-177 | Extracting the only frame of an extracted file writes the same bytes |
| ApngOpens.OpenExactly | common/lv_aic_apng.c:76-136 | The validator accepts a file if and only if its chunks fill it, each keeps the rule of its kind in terms of the chunks before it, the last is IEND, and every frame's standalone PNG fits the limit; the document then has the width, height, frames and plays that are written, and one frame for each fcTL, in order, with the numbers written in it and the data chunks up to the next, or the whole picture without acTL |
| ApngEncoded.WrittenOpens | common/lv_aic_apng.c:76-136 | An animation written as signature, IHDR, acTL, fcTL with IDAT or fdAT for each frame, and IEND, with right checksums and sequence numbers and rectangles on the canvas, opens for every number of plays, including none, with the size, frames and plays written, and frame k shows what was written for it |
| ApngPrinted.NextAsPrinted | common/lv_aic_apng.c:33-75 | In any document, at an fcTL printed from width, height, offsets, delay, dispose and blend and followed by its data, the enumerator answers exactly these numbers (a denominator of 0 as 100), and refuses an unknown dispose or blend operation |
| ApngPrinted.SpellsOneWord | common/lv_aic_apng.c:11-11 | A chunk has a kind exactly when its name spells it: IHDR, PLTE, tRNS, IDAT, IEND, acTL, fcTL, fdAT, dcTL |
| ApngRuled.ScanExactly | common/lv_aic_apng.c:89-130 | From any chunk on, the validation loop passes exactly when every further chunk keeps its rule and the shared chunks fit the limit |
| ApngCopied.CopyChunks | common/lv_aic_apng.c:142-177 | Chunk by chunk, an extracted frame is the header with the frame's own size, the chunks that every frame shares, byte for byte, the picture bytes of the frame's own data chunks in order, an fdAT without its sequence number, and IEND |
| ApngAccepted.OpenFacts | common/lv_aic_apng.c:76-136 | In an accepted document the colour prefix is readable and sums to prefix_bytes, enumeration yields exactly `frames` frames and ends at the end of the file, and every frame lies on the canvas with a nonempty, fully counted payload |
| ApngAccepted.StaticPlaysOnce | common/lv_aic_apng.c:80-98 | An accepted document without acTL is one frame, played once |
| ApngContainer.RewrittenChunk | common/lv_aic_apng.c:21-27 | Writing a chunk that was read gives back its bytes |
| ApngContainer.WrittenChunk | common/lv_aic_apng.c:137-141 | A written chunk is read back with its name, body and checksum, wherever it stands |
| ApngReader.NextFrame | common/lv_aic_apng.c:53-75 | The enumeration loop returns the specified frame and cursor, whose numbers OpenExactly and NextAsPrinted tie to the bytes, and moves the cursor on success only |
| ApngReader.OpenDocument | common/lv_aic_apng.c:76-136 | The validation loop accepts exactly the specified documents, characterised by OpenExactly, and returns the specified record |
| ApngReader.WriteChunk | common/lv_aic_apng.c:137-141 | Writes length, name, body and checksum in place and nothing else |
| ApngReader.Extract | common/lv_aic_apng.c:142-177 | Writes exactly the specified file at the start of the buffer on success, nothing otherwise |
| ApngReader.MeasuredIsSize | common/lv_aic_apng.c:149-158 | The preflight loop's running size is the wire size of the frame's pieces, refused exactly beyond the limit |
| ApngCompose.OverIsBetween | common/lv_aic_apng_compose.c:61-70 | Each channel blended by OVER lies between its inputs, and the result is at least as opaque as both |
| ApngCompose.OverChannelIsNearest | common/lv_aic_apng_compose.c:66-68 | The integer blend is a nearest integer to the exact weighted mean |
| ApngCompose.FirstPreviousIsBackground | common/lv_aic_apng_compose.c:53-57 | A first frame with PREVIOUS disposal leaves what BACKGROUND would leave |
| ApngLayers.OverIsNearest | common/lv_aic_apng_compose.c:61-70 | Blending is the Porter-Duff over operator: the resulting alpha is a nearest integer to the exact one, each channel to the mean weighted by coverage, and a transparent source changes nothing |
| ApngLayers.PreviousLeavesNoTrace | common/lv_aic_apng_compose.c:43-73 | A frame disposed by PREVIOUS leaves no trace: all that is drawn later shows as if it never was drawn |
| ApngLayers.BackgroundForgets | common/lv_aic_apng_compose.c:43-73 | In the rectangle of a frame disposed by BACKGROUND all that is drawn later shows as if drawn on an empty canvas |
| ApngLayers.OutsideIsUntouched | common/lv_aic_apng_compose.c:43-73 | Outside its rectangle a frame might as well not be there |
| ApngLayers.SourceHides | common/lv_aic_apng_compose.c:58-60 | A kept frame drawn with SOURCE hides all before it in its rectangle |
| ApngLayers.OverBlends | common/lv_aic_apng_compose.c:61-70 | A frame drawn with OVER is blended on what the frames before it left, and stays when it is kept |
| ApngCompose.AppliedEverywhere | common/lv_aic_apng_compose.c:33-42 | A finished rectangle loop changed exactly the pixels of its rectangle, each to its specified value |
| ApngCanvas.Canvas.Compose | common/lv_aic_apng_compose.c:43-73 | The one-scratch-rectangle compositor keeps the canvas equal, pixel by pixel, to the model that remembers whole previous canvases; padding is untouched; refusals are exactly the geometry checks and change nothing |
| ApngCanvas.Canvas.Reset | common/lv_aic_apng_compose.c:17-22 | A reset shows the empty history and leaves padding alone |
| ApngCanvas.Canvas.Rectangle | common/lv_aic_apng_compose.c:33-42 | Clearing, restoring and saving a rectangle do exactly that, row by row |
| ApngCanvas.Span | common/lv_aic_apng_compose.c:4-10 | The overflow-free span check is the exact one |
| ApngTimeline.Timeline.Poll | common/lv_aic_apng_timeline.c:28-67 | The 64-bit poll, which splits every quantity into parts, computes the step and clock of the exact specification |
| ApngTimeline.Timeline.Commit | common/lv_aic_apng_timeline.c:68-87 | The 64-bit commit computes the exact Q32 deadline |
| ApngTimeline.Timeline.Rate | common/lv_aic_apng_timeline.c:94-100 | The rate change computes the specified clock |
| ApngTimeline.DueIsExact | common/lv_aic_apng_timeline.c:15-19 | The comparison in parts decides exactly whether media time reached the deadline |
| ApngTimelineLaws.MediaTimeIsExact | common/lv_aic_apng_timeline.c:4-14 | Media time grows by exactly elapsed * rate, and an advance fails only for a clock running backwards or a true 64-bit overflow |
| ApngTimelineLaws.ExtraPollsDoNotDrift | common/lv_aic_apng_timeline.c:4-14 | A poll in between changes nothing in the clock at a later time |
| ApngTimelineLaws.RateChangeLosesUnderOneTick | common/lv_aic_apng_timeline.c:94-100 | A rate change never moves media time forward and loses less than one tick of the new grid |
| ApngTimelineLaws.WaitIsTight | common/lv_aic_apng_timeline.c:48-63 | A WAIT is positive and exceeds the exact remaining wall time by less than rate_den/rate_num + 1 microseconds |
| ApngTimelineLaws.WaitIsSufficient | common/lv_aic_apng_timeline.c:28-67 | At the same rate a successful poll after the wait is never WAIT again |
| ApngTimelineLaws.WholeRun | common/lv_aic_apng_timeline.c:28-87 | Over every run the committed indices are 0..frames-1 cyclically, an ended animation made exactly plays * frames commits, and the deadline is the truncated media time of the first commit plus the quantised, clamped delays |
| ApngTimelineLaws.AllShownEnds | common/lv_aic_apng_timeline.c:28-87 | Conversely, exactly when plays * frames commits were made nothing is left to show: no frame is requested or taken any more, and the first due poll ends the animation |
| ApngTimelineExactly.PollAnswers | common/lv_aic_apng_timeline.c:28-67 | Over every run the answer of a poll from the number n of commits and whether the deadline passed: frame n mod frames of play n / frames when it is awaited or due with more to show, the end after the last, PAUSED or WAIT; it fails only for a clock running backwards or a number beyond 64 bits |
| ApngTimelineExactly.WaitExactly | common/lv_aic_apng_timeline.c:48-63 | The wait is the least number of microseconds at the rate that covers the remaining media time, itself rounded up to whole microseconds |
| ApngTimelineExactly.CommitExactly | common/lv_aic_apng_timeline.c:68-87 | A commit succeeds exactly when a frame is awaited and neither media time nor deadline overflows; the deadline grows by exactly one delay, and a still picture ends with its commit |
| ApngTimelineExactly.PauseAndRateExactly | common/lv_aic_apng_timeline.c:88-100 | A pause and a rate between a tenth and ten are taken exactly when the clock can be advanced, and change nothing else |
| ApngTimelineLaws.StartIsFirstCommit | common/lv_aic_apng_timeline.c:72-74 | What the deadlines of a run are counted from is the media time of its first commit, truncated to 2^-32 microsecond |
| ApngTimelineLaws.EndedIsFinal | common/lv_aic_apng_timeline.c:28-87 | An ended animation stays ended and commits nothing |
| ApngTimelineLaws.ParametersNeverChange | common/lv_aic_apng_timeline.c:20-100 | No operation changes frames, plays, kind or minimum delay |
| ApngTimelineLaws.DelayErrorUnderOneQ | common/lv_aic_apng_timeline.c:77-84 | A quantised delay is below the exact one by less than 2^-32 microsecond |
| ApngTimelineLaws.DeadlineErrorBound | common/lv_aic_apng_timeline.c:77-84 | n quantised delays lose less than n * 2^-32 microsecond in all |
| ApngStream.Stream.Tick | port/lv_aic_apng_stream.c:70-93 | After each successful FRAME tick the canvas equals the composition of document frames 0..index from transparency, across plays and restarts; a tick fails exactly for a latched fault, the clock, the decoder or an exhausted sequence |
| ApngStream.Stream.Restart | port/lv_aic_apng_stream.c:98-109 | A restart begins the document's frames and plays anew at the current time, keeping pause, rate and minimum delay; it is refused exactly by a fault or a clock running backwards |
| ApngStream.Stream.ShowFrame | port/lv_aic_apng_stream.c:75-87 | Enumeration, extraction, decoding, composition and commit of the frame that the clock asks for leave the canvas equal to the composition up to that frame, and fail exactly for the sequence, the decoder or the clock |
| ApngStream.OpenStream | port/lv_aic_apng_stream.c:23-61 | A stream opens exactly when the document is accepted, every budget holds and memory is there, and then shows its invariant |
| ApngStreamExactly.StreamOpensExactly | port/lv_aic_apng_stream.c:23-61 | The budgets of a stream: the largest PNG in packets of 256 bytes, and file, that PNG, the largest rectangle and two canvases within the memory budget |
| ApngStream.ExtractionIsPng | port/lv_aic_apng_stream.c:79-82 | Extraction into the stream's buffer gives the standalone PNG, independent of the buffer's size |
| ApngStream.FrameIsComposable | port/lv_aic_apng_stream.c:84-84 | No enumerated frame is refused by the compositor, so compose cannot be why a tick fails |
| PlayerLaws.EverySlotOwnsItsLease | port/lv_aic_player_frames.c:53-104 | In every reachable state each slot in use, but for one whose put just succeeded, holds a distinct lease that the SDK still has out, and so does the pending lease |
| PlayerLaws.PinsAreReleasedOnceAndFirst | port/lv_aic_player_frames.c:169-182 | Every pin is released at most once and before any put of its lease; a retried put never releases it again |
| PlayerLaws.ShownMemoryIsLive | port/lv_aic_player_frames.c:28-104 | The memory a slot may show is handed out in every reachable state, also after the SDK freed the frame |
| PlayerLaws.NeverQuarantined | port/lv_aic_player_frames.c:81-90 | With every pin the allocator's own, no release fails, so the mailbox is never quarantined |
| PlayerLaws.SlotIsFree | port/lv_aic_player_frames.c:70-74 | Eight leases for eight slots, the pending one among them: a slot is free |
| PlayerLaws.AlwaysASlot | port/lv_aic_player_frames.c:53-74 | An open mailbox refuses the pending lease exactly when session or frame is broken, and makes it wait exactly behind an unconsumed picture under the policy |
| PlayerLaws.AtMostOneReady | port/lv_aic_player_frames.c:92-103 | At most one slot is READY and at most one PUBLISHING |
| PlayerLaws.PublishedUntilRead | port/lv_aic_player_frames.c:28-40 | PUBLISHED is left only by the reader's release |
| PlayerLaws.PreservedUntilConsumed | port/lv_aic_player_frames.c:92-103 | An unconsumed picture is retired only by closing or by a newer picture whose admission did not see the policy |
| PlayerSections.PollExactly | port/lv_aic_player_frames.c:113-141 | In every reachable state a poll of an idle UI hands out a slot if and only if the mailbox is open and some slot is READY, and not RGB for the older interface, whatever the policy; that slot was READY and is PUBLISHING, and nothing else changes |
| PlayerSections.UnmarkExactly | port/lv_aic_player_frames.c:122-140 | A picture whose image could not be made is READY again exactly under the policy in an open mailbox, else RETURNING; nothing else changes |
| PlayerSections.RetainExactly | port/lv_aic_player_frames.c:28-35 | An image may keep its picture exactly in an open mailbox; the slot is then PUBLISHED |
| PlayerSections.ReaderExactly | port/lv_aic_player_frames.c:36-40 | The last reader of a published picture makes its slot RETURNING |
| PlayerSections.CloseExactly | port/lv_aic_player_frames.c:198-205 | Closing by either side retires every READY and DEFERRED slot and no other |
| PlayerSections.ReopenExactly | port/lv_aic_player_frames.c:213-220 | A closed mailbox opens again exactly when every slot is EMPTY |
| PlayerSections.SubmitExactly | port/lv_aic_player_frames.c:53-76 | The pending lease enters a slot that was EMPTY exactly when neither session nor frame is broken, the mailbox is open and no picture waits under the policy; else nothing changes |
| PlayerSections.PinExactly | port/lv_aic_player_frames.c:77-91 | A pinned frame that can be shown fills its slot with its lease, pin, memory and kind; else the slot is given up |
| PlayerSections.AbandonExactly | port/lv_aic_player_frames.c:81-90 | A slot that is given up is EMPTY and its lease stays with the caller |
| PlayerSections.PublishExactly | port/lv_aic_player_frames.c:92-103 | A filled slot is DEFERRED exactly behind a READY or PUBLISHING one under the policy in an open mailbox; else it replaces all that wait, or is RETURNING in a closed one |
| PlayerSections.PromoteExactly | port/lv_aic_player_frames.c:159-168 | A DEFERRED slot moves on exactly when nothing is READY or PUBLISHING: to READY, or to RETURNING in a closing mailbox |
| PlayerDrain.DrainReturns | port/lv_aic_player_frames.c:154-184 | A drain whose puts succeed ends within 35 steps of the worker with every slot that was RETURNING empty, its lease no longer out, no slot due, and all but deferred ones as they were |
| PlayerConserved.NoLeaseIsLost | port/lv_aic_player_frames.c:53-184 | In every reachable state a lease that the SDK has out is the worker's pending one or stands in exactly one slot in use |
| PlayerConserved.NoPinIsLost | port/lv_aic_player_frames.c:77-182 | In every reachable state a pin that the allocator has out stands in a slot in use, or is being released by a submission that gives up |
| PlayerInvariant.StepKeeps | port/lv_aic_player_frames.c:28-220 | Every step of worker, UI, readers and SDK keeps the ownership invariant; what each does is in PlayerSections and PlayerDrain |
| PlayerDeferred.StepExactly | port/lv_aic_player_frames.c:92-103 | From at most one DEFERRED slot a step leads to two exactly if it publishes under the policy in an open mailbox with one picture ready or on its way and another deferred |
| PlayerDeferred.RunExactly | port/lv_aic_player_frames.c:92-103 | A run never has two DEFERRED slots if and only if no publication in it meets that condition |
| PlayerDeferred.NeverSwitchedMidway | port/lv_aic_player_frames.c:185-186 | A caller that turns the policy on only between submissions never has a DEFERRED slot |
| PlayerDeferred.NeverSwitchedOff | port/lv_aic_player_frames.c:185-186 | A caller that turns the policy off only while nothing is deferred has at most one DEFERRED slot |
| PlayerDeferred.DeferredMeansSwitchedOn | port/lv_aic_player_frames.c:92-99 | A picture is deferred only when the policy was turned on after its own admission |
| PlayerDeferred.ManyDeferred | port/lv_aic_player_frames.c:53-104 | A concrete run: n rounds of turning the policy off, admitting, and turning it on before publishing leave all but the first of n slots DEFERRED, up to seven |
| PlayerDeferred.TwoDeferred | port/lv_aic_player_frames.c:53-104 | So "at most one DEFERRED" fails of a reachable state |
| PlayerMailbox.Frames.AdmitLease | port/lv_aic_player_frames.c:62-74 | The admission section over the slot array decides and marks as specified |
| PlayerMailbox.Frames.MarkReady | port/lv_aic_player_frames.c:113-120 | The poll section over the slot array computes the specified slot and slots |
| PlayerMailbox.Frames.UnmarkReady | port/lv_aic_player_frames.c:124-124 | The section after a failed image computes the specified slots |
| PlayerMailbox.Frames.CloseMailbox | port/lv_aic_player_frames.c:198-205 | The closing section over the slot array computes the specified slots |
| PlayerMailbox.Frames.PublishSlot | port/lv_aic_player_frames.c:92-103 | The publication section over the slot array computes the specified slots |
| PlayerMailbox.Frames.PromoteDeferred | port/lv_aic_player_frames.c:160-168 | The promotion section over the slot array computes the specified slots |
| PlayerAllocator.AllocateKeeps | port/lv_aic_player_allocator.c:68-100 | An allocation keeps used = summed capacities of the live frames <= budget and the heap exactly those planes; a refused one changes nothing |
| PlayerAllocated.AllocateExactly | port/lv_aic_player_allocator.c:68-100 | An allocation succeeds exactly when size and format are accepted, a record is free, the budget has room and every plane gets an aligned block below 4 GiB; the frame, its record, the account and the memory handed out are then exactly as asked |
| PlayerAllocated.CapacityHolds | port/lv_aic_player_allocator.c:36-67 | In every format every sample of every pixel, luma and chroma, lies within the pitch and the capacity of its plane, and planes that the format lacks are empty |
| PlayerAllocated.AllocatedIsShown | port/lv_aic_player_allocator.c:36-100 | A YUV frame just allocated is accepted when it is borrowed for showing with the capacities of its pin |
| PlayerAllocator.FreeFrameKeeps | port/lv_aic_player_allocator.c:107-121 | The SDK's free keeps that account |
| PlayerAllocator.AcquireKeeps | port/lv_aic_player_allocator.c:147-174 | A pin keeps that account and its ticket is strictly newer than all before |
| PlayerAllocator.AcquiredPins | port/lv_aic_player_allocator.c:147-174 | An acquired pin names the lent frame's memory and no earlier ticket does |
| PlayerAllocated.AcquireExactly | port/lv_aic_player_allocator.c:147-174 | A frame is pinned exactly when a live record, neither retired nor pinned, stands for it with memory enough for its size; only that record changes |
| PlayerAllocated.AllocatedPins | port/lv_aic_player_allocator.c:68-174 | A frame just allocated can be pinned |
| PlayerAllocator.ReleaseExactly | port/lv_aic_player_allocator.c:175-185 | A release succeeds exactly for a live ticket, which is gone afterwards, and gives memory back exactly when the SDK had freed the frame meanwhile |
| PlayerAllocator.FreeExactly | port/lv_aic_player_allocator.c:107-121 | The SDK's free gives memory back exactly when the frame is not pinned; a pinned frame is retired and a second free refused |
| PlayerAllocated.FreesExactly | port/lv_aic_player_allocator.c:107-121 | A free succeeds exactly for a frame with a record that was not freed before, or for one without memory; a pinned record is only marked, any other is blank |
| PlayerAllocator.PinnedIsLive | port/lv_aic_player_allocator.c:147-174 | Memory under a pin is handed out with its capacity |
| PlayerAllocator.PinSurvivesFree | port/lv_aic_player_allocator.c:107-121 | A pin survives the SDK freeing the very frame |
| PlayerAllocator.OneMatch | port/lv_aic_player_allocator.c:101-106 | No two records stand for the same frame |
| PlayerTable.Table.Allocate | port/lv_aic_player_allocator.c:68-100 | The loops over table and planes, with rollback, compute the specified table and heap |
| PlayerTable.Table.Acquire | port/lv_aic_player_allocator.c:147-174 | The search loop pins the specified record |
| PlayerTable.Table.Release | port/lv_aic_player_allocator.c:175-185 | The release loop computes the specified table and heap |
| PlayerTable.Table.FreeFrame | port/lv_aic_player_allocator.c:107-121 | The free loop computes the specified table, heap and answer |
| PlayerSession.AcquireKeeps | port/lv_aic_player_session.c:63-81 | A lease is newer than every one before and no other lease is touched |
| PlayerSession.ReleaseKeeps | port/lv_aic_player_session.c:82-90 | A put ends exactly this lease, and only if it succeeds |
| PlayerSession.CloseKeeps | port/lv_aic_player_session.c:118-131 | Stop and close refuse while a frame is leased and keep the ticket counter |
| PlayerSession.AcquireExactly | port/lv_aic_player_session.c:63-81 | A frame is leased exactly by a started, playing video session without a fault when the SDK has one that is not out already and a place and a ticket are free; a frame that is out already is the one refusal that changes the session |
| PlayerSession.ReleaseExactly | port/lv_aic_player_session.c:82-90 | A put ends one lease and nothing else, and one that the SDK refuses faults the session |
| PlayerSession.CloseExactly | port/lv_aic_player_session.c:118-131 | Close succeeds exactly with nothing leased, no quarantine, and the SDK stopping and destroying its player |
| PlayerSession.Player.AcquireFrame | port/lv_aic_player_session.c:63-81 | The slot search, the duplicate check and the lease compute the specified session |
| PlayerSession.Player.ReleaseFrame | port/lv_aic_player_session.c:82-90 | The slot search and the put compute the specified session |
| MppCache.ReadersAreSafe | image/mpp/lv_aic_mpp_decoder.c:533-678 | Over every run bytes, entries and open sessions are the sums they stand for, entries stay within the configured cap, bytes exceed the limit only while every item is read, no two valid items share source and arguments, and a session that is read is freed only by its own close |
| MppCache.InvalidForGood | image/mpp/lv_aic_mpp_decoder.c:573-603 | Over every run an invalidated session is never handed out again; it stays, with the same readers, through everything but its own closes, and leaves with the last of them |
| MppCache.AcquireKeeps | image/mpp/lv_aic_mpp_decoder.c:644-660 | A hit serves a valid item of the same source and compatible arguments, spelt out by OpenExactly, adds one reader and makes it the newest; nothing else changes |
| MppCacheExactly.OpenExactly | image/mpp/lv_aic_mpp_decoder.c:627-660 | An open is a hit if and only if caching is on, for cache and request, and some valid item of the source has equal premultiplication and indexing and either the same stride request or a raw buffer whose stride is the aligned one if that is asked for; the newest such item is handed out, and hits and misses are counted |
| MppCache.InsertKeeps | image/mpp/lv_aic_mpp_decoder.c:662-678 | An insertion ends with the item cached, valid, newest and within byte limit and cap, or with the session left uncached; items that are read survive |
| MppCacheExactly.InsertExactly | image/mpp/lv_aic_mpp_decoder.c:662-678 | A decode enters the cache exactly when caching is on, its key could be copied and it fits beside the items that are read; as few of the oldest unread items are evicted for it as it takes |
| MppCache.MakeRoomKeeps | image/mpp/lv_aic_mpp_decoder.c:670-672 | Making room evicts only unread items and ends with room or with every item read |
| MppCacheExactly.EvictExactly | image/mpp/lv_aic_mpp_decoder.c:555-565 | The evicted item is the oldest that nobody reads; the others keep their order, and the eviction is counted |
| MppCacheExactly.RoomExactly | image/mpp/lv_aic_mpp_decoder.c:670-672 | Making room evicts the oldest unread items, as few as it takes, and succeeds exactly when the new item fits beside those left |
| MppCache.SetLimitKeeps | image/mpp/lv_aic_mpp_decoder.c:595-603 | A new limit leaves only read items above it; a zero limit invalidates all |
| MppCacheExactly.SetLimitExactly | image/mpp/lv_aic_mpp_decoder.c:595-603 | A new limit evicts the oldest unread items, as few as it takes; zero leaves exactly the items that are read, invalid |
| MppCache.DropInv | image/mpp/lv_aic_mpp_decoder.c:573-593 | A drop leaves only invalid, still read items of the dropped source |
| MppCacheExactly.DropExactly | image/mpp/lv_aic_mpp_decoder.c:573-593 | A drop leaves the items of other sources as they were, and of its own source exactly those that are read, invalid, all in order |
| MppCache.OpenKeeps | image/mpp/lv_aic_mpp_decoder.c:963-979 | An open hands out a valid cached session of that source or the fresh decode, and leaves invalid ones as they are |
| MppCache.CloseKeeps | image/mpp/lv_aic_mpp_decoder.c:994-1013 | A close ends one reader; a cached item is freed exactly at its last close when invalidated or over the limit |
| MppCacheExactly.CloseExactly | image/mpp/lv_aic_mpp_decoder.c:994-1013 | A close ends one reader of its session; the item leaves exactly at the last close when invalid or over the limit; nothing else changes |
| MppCacheList.Cache.Unlink | image/mpp/lv_aic_mpp_decoder.c:533-537 | Unlinking leaves a well-formed doubly linked list of the other sessions, in order, and no data changed |
| MppCacheList.Cache.MakeNewest | image/mpp/lv_aic_mpp_decoder.c:539-544 | Linking in leaves a well-formed list with the session at its newest end |
| MppCacheList.Cache.EvictOldest | image/mpp/lv_aic_mpp_decoder.c:555-565 | The walk evicts the oldest unread session, or reports that there is none |
| MppCacheList.Cache.DropLocked | image/mpp/lv_aic_mpp_decoder.c:573-584 | The walk that removes while it goes does what the specification does |
| MppCacheList.Cache.SetLimit | image/mpp/lv_aic_mpp_decoder.c:595-603 | The new limit, with its drop and evictions, computes the specified store |
| MppCacheList.Cache.OpenImage | image/mpp/lv_aic_mpp_decoder.c:963-979 | Lookup, decode and insertion over the linked list compute the specified store and session, which OpenExactly and InsertExactly characterise |
| MppCacheList.Cache.CloseImage | image/mpp/lv_aic_mpp_decoder.c:994-1013 | Closing over the linked list computes the specified store |
| Ge2dStripes.SamplesKept | draw/ge2d/lv_draw_aic_ge2d_stripes.c:64-123 | Output k of a strip samples exactly the luma and chroma Q16 coordinates of the unsplit command, on the same rows, and lands on the same destination pixel, in all four rotations |
| Ge2dStripes.TilesOnce | draw/ge2d/lv_draw_aic_ge2d_stripes.c:111-118 | The strips of an accepted command tile the destination crop: a pixel lies in a strip exactly when it lies in the crop, and then in only one |
| Ge2dStripes.StripStaysInside | draw/ge2d/lv_draw_aic_ge2d_stripes.c:109-118 | No strip writes outside the destination crop |
| Ge2dStripes.NoFurtherSplit | draw/ge2d/lv_draw_aic_ge2d_stripes.c:40-62 | Every strip is 16..31 wide and needs no further split |
| Ge2dStripes.AcceptedExactly | draw/ge2d/lv_draw_aic_ge2d_stripes.c:40-134 | A command that needs splitting is accepted exactly when its crops lie in their buffers, nothing is below the format's minimum and the last output's sample lies in the source crop |
| Ge2dStripes.StripInside | draw/ge2d/lv_draw_aic_ge2d_stripes.c:81-119 | All samples of a strip lie in its crop, that in the command's crop, that in the buffer, with both taps in each channel except at the original edge |
| Ge2dStripes.ChromaRegistered | draw/ge2d/lv_draw_aic_ge2d_stripes.c:94-102 | Chroma stays registered: its phase is the luma phase shifted, for the first and the last sample |
| Ge2dStripes.EveryOutputOnce | draw/ge2d/lv_draw_aic_ge2d_stripes.c:75-78 | The balanced offsets and widths put every output in exactly one strip |
| Ge2dStripes.StripeCount | draw/ge2d/lv_draw_aic_ge2d_stripes.c:125-134 | The loop counts the strips exactly when every one of them is accepted |
| Ge2dStripes.StripeRun | draw/ge2d/lv_draw_aic_ge2d_stripes.c:136-146 | Nothing is submitted unless every strip is accepted; the strips go out in order and a failed one ends the run |
| Ge2dExactly.StripIsTight | draw/ge2d/lv_draw_aic_ge2d_stripes.c:81-119 | A strip's crop starts in the block of its first sample, and one block less would cut off a tap of its last, unless it ends where the source crop does |
| Ge2dExactly.StripsAreEven | draw/ge2d/lv_draw_aic_ge2d_stripes.c:61-78 | Strips are as few as 31 outputs each allow and differ by one output at most, the wider ones first |
| Ge2dExactly.ChromaFollows | draw/ge2d/lv_draw_aic_ge2d_stripes.c:40-118 | In every strip twice a halved chroma coordinate is the luma coordinate, on both axes |
| Ge2dExactly.SplittableExactly | draw/ge2d/lv_draw_aic_ge2d_stripes.c:40-62 | What a split asks of a command: plain, at most 4096 wide, of a known format, its first sample in the first chroma block, and its chroma following luma on both axes |
| Ge2dExactly.OtherwiseWhole | draw/ge2d/lv_draw_aic_ge2d_stripes.c:40-69 | A command is split exactly when it is phased and scaled by a little more than one to one at 32 outputs or more; any other is its own only strip, untouched |
| Ge2dExactly.LayoutIsSampled | draw/ge2d/lv_draw_aic_ge2d_stripes.c:17-35 | The planner halves chroma exactly where the YUV sampler does |
| Ge2dStripes.AxisCovers | draw/ge2d/lv_draw_aic_ge2d_scale.c:4-29 | A served axis holds every sample with both taps inside the image; one is refused only when a sample lies outside or too little of the image is covered |
| Ge2dExactly.AxisSamples | draw/ge2d/lv_draw_aic_ge2d_scale.c:4-25 | Output k samples where an image magnified about the pivot has it, short by less than 1/65536 for each pixel of distance, and exactly at scale 256 |
| Ge2dExactly.AxisServedExactly | draw/ge2d/lv_draw_aic_ge2d_scale.c:4-29 | An axis is served exactly for allowed sizes and scales when the first and last sample lie in the image and the crop has four pixels |
| Yuv.ReadsInside | common/lv_aic_yuv.c:64-85 | Every byte read for a pixel of a validated frame lies in its plane's capacity, odd sizes included |
| Yuv.SampleAt | common/lv_aic_yuv.c:64-85 | The branches of the sampler read exactly the specified bytes of each of the twelve formats |
| Yuv.Validate | common/lv_aic_yuv.c:50-62 | The validation loop accepts exactly the frames whose planes all fit |
| YuvExactly.ValidExactly | common/lv_aic_yuv.c:4-62 | A frame is valid exactly when its size is allowed and every byte of every row of its planes, as its format lays them out, lies within the plane's capacity and the address space |
| YuvColour.SampleReads | common/lv_aic_yuv.c:64-85 | Sampling reads the picture that memory holds in the byte order that the format's name spells, chroma halved as the format says |
| YuvColour.ColourIsNear | common/lv_aic_yuv.c:87-129 | Every channel of every sample is, rounded and clipped, the colour of the matrix of ITU-R BT.601 or BT.709, in limited or full range |
| YuvColour.Greys | common/lv_aic_yuv.c:118-129 | Without chroma all channels are equal, from black at 16 to white at 235 in limited range, and luma itself in full range |
| Yuv.ToRgb888 | common/lv_aic_yuv.c:94-131 | Conversion is refused exactly when frame or output do not fit or overlap, and else writes exactly the converted rows |
| Yuv.OutputApart | common/lv_aic_yuv.c:109-115 | No byte read for a pixel lies in the output, so the conversion sees the frame as it was |
| YuvExactly.OverlapsExactly | common/lv_aic_yuv.c:109-115 | An output overlaps a plane exactly when they share an address between first and last byte |
| Yuv.PaintedPixel | common/lv_aic_yuv.c:118-129 | Each byte of each output pixel is the converted sample of that pixel |
| Yuv.PaintedPadding | common/lv_aic_yuv.c:118-129 | Bytes outside the rows stay as they were |
| Yuv.Channel | common/lv_aic_yuv.c:87-92 | The channel is the nearest byte to the fixed-point value, clipped at both ends |
| YuvCrop.CropCommutes | common/lv_aic_yuv_mpp.c:69-92 | For all twelve formats the pixel of the cropped frame is the pixel of the whole frame at the shifted place |
| YuvCrop.ConvertedCrop | common/lv_aic_yuv_mpp.c:69-92 | Byte by byte, converting the cropped frame gives the crop rectangle of converting the whole frame |
| YuvCrop.CropAcceptedExactly | common/lv_aic_yuv_mpp.c:76-91 | Of a validated frame a crop is accepted exactly when its rectangle is inside and aligned to the chroma; the later checks refuse nothing more |
| YuvExactly.CropExactly | common/lv_aic_yuv_mpp.c:69-91 | A crop is accepted exactly when it is not empty, lies in the frame and starts on a whole chroma sample, spelt out by format |
| YuvExactly.BorrowExactly | common/lv_aic_yuv_mpp.c:43-68 | A buffer without a crop is borrowed exactly when it is physical, every plane ends below 4 GiB and the frame of its planes is valid, with the buffer's own numbers |
| YuvCrop.Borrow | common/lv_aic_yuv_mpp.c:43-95 | The loops over the planes compute the specified frame, with the crop applied, or refuse as specified |
| CanCapture.RoundTrip | tools/sdk/can_capture.py:42-117 | Decoding an encoded capture returns its pixels exactly when its size is allowed, for any number of runs, also beyond 65536 |
| CanCapture.LossIsNoticed | tools/sdk/can_capture.py:68-83 | Removing any nonempty set of DATA frames is always rejected, also a multiple of 65536 in a row |
| CanCapture.AcceptedIsComplete | tools/sdk/can_capture.py:42-91 | Whatever frames arrive, an accepted capture has positive dimensions, exactly width * height * depth bytes and at most 64 MiB |
| CanExactly.DecodeExactly | tools/sdk/can_capture.py:42-91 | A stream is accepted as a picture if and only if its capture frames are an opening with an allowed size, runs numbered from one without a gap that fill the picture, and a closing with their count and the picture's checksum; foreign frames and what follows make no difference |
| CanExactly.RunIsLongest | tools/sdk/can_capture.py:102-106 | A run of the encoder ends only where the pixels end, at the largest count, or before a different pixel |
| CanCapture.Receiver | tools/sdk/can_capture.py:42-91 | The receiving loop computes the specified result |
| CanCapture.Encoder | tools/sdk/can_capture.py:94-117 | The encoding loops produce the specified frames |

## Where the code promises less

- At most one DEFERRED slot is not kept by port/lv_aic_player_frames.c:92-103: when the preserve policy is
  turned on between a frame's admission and its publication, off again and on again for the next frame,
  several slots wait DEFERRED. `PlayerDeferred.StepExactly` and `PlayerDeferred.RunExactly` give the
  exact condition, `PlayerDeferred.NeverSwitchedMidway` and `PlayerDeferred.NeverSwitchedOff` two rules
  under which a caller is safe, and `PlayerDeferred.ManyDeferred` the run that breaks it.
- Decoding of the CAN capture accepts ARGB8888 and XRGB8888, which the test encoder cannot produce; the
  round trip is therefore stated for RGB565 and RGB888, all that the encoder accepts.

## Left out

- Concurrency below one atomic access or one mutex section: each is one sequentially consistent step.
- The pipeline's worker loop and its wake semaphore are in the step machine only (`SpiPipeline.Toil`); the object in `SpiPipelineRing` has run_next, drain and the producer's calls, each run without interruption.
- Hardware and SDK calls (DMA start and wait, mpp_*, aicos_*, cache maintenance) are answers given to the model; the answer of an installed transform is arbitrary.
- Yuv.ToRgb888: addresses are 64 bits wide (the source compares with UINTPTR_MAX), and a plane's second span check, which repeats validation, is not repeated.
- Yuv.Validate: the colour space is one of the four by its type, so its range check is not modelled.
- SpiFrame.PackRgb565: the source and the output are separate buffers, so the address overlap test is not modelled; sizes are taken as 64 bits wide.
- ApngReader.Extract: the file and the output are separate buffers, so the address overlap test is not modelled.
- ApngCanvas.Canvas.Compose: pixels, scratch and the frame's picture are separate buffers, so the overlap tests are not modelled.
- ApngStream.Stream.Tick: the picture decoder is any function of the PNG's bytes that may fail; its own frame leases are not part of this model.
- SpiDisplayMachine.WholeRun: a run holds the operations that returned; a call of the display that is still under way is covered by the pipeline's own step machine only. Flushed images are written by the application between calls, to memory that no accepted frame still borrows.
- SpiDisplay.Display.FlushFrame: the wait for room is a script of what each round finds, complete when it ends with room; that it ends rests on the worker being scheduled, which is not modelled; scheduled, it finishes (`SpiPipelineProgress.WorkerFinishes`).
- MppCacheList.Cache.OpenImage: decoding is one step with a given result; sessions have ghost names, and the cost and the stride comparison of a decode are given with it.
- CRC-32 is any function of the bytes (containers and CAN capture).
- NULL-argument checks, allocation of the objects themselves and their destruction (the pipeline's and the display's close, and the cache's release, are in).
- Timings, ticks and statistics other than the frame counters.
- The older handoff and worker, camera capture, APNG frame reader, video plane, SPI session, panel and SDK drivers: simpler relatives of the modelled protocols or driver sequencing.
- Player seek, pause, volume, clock and URI handling; opening a session is one step.
- The conversion of frames to SDK buffers (common/lv_aic_yuv_mpp.c:5-40), the SDK's pixel-format tables, image header sniffing, file streams.
- The rest of the GE2D executor, LVGL widgets, demos, configuration and build scripts.
