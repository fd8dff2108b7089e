# Verification model

A Dafny model of three parts of the system, and proofs about them:

* the meeting audio pipeline, from the worklet that cuts the microphone into numbered frames, through the
  bounded delivery queue, to `AudioProcessor`, which removes replays, resamples, cuts overlapping windows and feeds
  them to a consumer that may fail;
* the protocols that must survive lost replies: publishing a release by staging, renaming and, when anything
  fails, undoing; reviewing a knowledge proposal around one write that must not be repeated; writing a transcript
  chunk by chunk and analysing it page by page;
* three algorithms that stand for a simpler statement: glob matching, the locators of an observed page, and the
  edit distance of a transcript.

`dafny verify dfyconfig.toml` checks everything.

## How it is built

| file | what it holds |
|---|---|
| `Wrappers.dfy` | a value that may be missing |
| `Resampling.dfy`, `Windowing.dfy`, `Segments.dfy` | the batch definitions: all outputs of one finished input, the windows over them, the chunks |
| `Conversion.dfy` | what a converted sample is, said of rates, kernel and input alone |
| `Streaming.dfy` | `convert` and `emit` as loops over a sliding history, proved equal to the batch definitions |
| `AudioHistory.dfy`, `Admission.dfy`, `AudioLog.dfy`, `AudioGaps.dfy`, `AudioState.dfy` | what a source has said so far, what `accept` decides, the log of a source and the segments it calls for, where they are cut and what is reported, and the invariant of the processor |
| `AudioProcessor.dfy` | the object, its fields and its methods, split at every `await` |
| `AudioTheorems.dfy`, `AudioFlush.dfy`, `Pipeline.dfy` | what all of that means over whole runs, for a whole `flush`, and for what the worklet captures |
| `Worklet.dfy`, `Delivery.dfy` | `MeetingPCM` and the delivery queue |
| `Renames.dfy`, `Remote.dfy`, `Staging.dfy`, `Publish.dfy` | the plan of a swap and its undoing; the server; the manifest; the publication |
| `Review.dfy`, `Extract.dfy`, `Transcript.dfy` | proposals under review, the extraction loop, and the transcript it reads |
| `Glob.dfy`, `Locator.dfy`, `EditDistance.dfy` | the three algorithms |

Objects whose methods update fields are classes; a record that the program always copies before changing it
(`Source` in `audio.ts`) is a value.  A ghost field holds what only the proofs need: what a source said, which chunks
were emitted, what a server went through.  Each such record is written where the event happens, not where it is
needed.

Replies, failures, callbacks and writes to disk are chosen freely at each step.  Where a method awaits, it is split,
and any other method may run in between; the `Run` methods accept every interleaving.  Constants such as `willing`,
`durable` or `answering` say that nothing outside the program fails; they are arbitrary, and only the statements that
something does go through depend on them.  `Review.Run` also lets a decision or a correction come while another one is
under way, although the program takes them one after another (`runtime.ts:147-158`): what holds of it holds of the
program.

## Where the program and its promises differ

* **A transcription whose transaction is rolled back.**  The rows are undone, but the process still remembers the last
  of them as the one to make final next, and does so before the chunk is transcribed again.  The new attempt is then
  refused if and only if it has a text for that row (`Transcript.Retry`); `Transcript.OneFailure` is a chunk of two
  sentences of which only the second ever gets into the transcript.  Without such a rollback every chunk whose inference
  succeeds goes through (`Transcript.Transcriber.Settle`).
* **A `flush` that resolves with chunks still waiting.**  Its last `drain` may be given the promise of a loop that is
  over and not yet cleared, because another caller drained in the moment before; that loop does not look at what
  `flush` has just queued.  This is the only way (`AudioFlush.FlushTail`); `AudioFlush.Strand` is such a `close`, and what
  waits after it waits for good (`AudioFlush.ClosedForGood`).
* **A release without title or notes cannot be put back** once its metadata was announced.  An edit replaces an absent
  title by an empty one, which then does not read as the original.  With a willing server, and no local file under a
  name that the program gives out itself, the restoration succeeds if and only if the metadata was not touched or had
  both (`Publish.Publisher.Restore`), and the program reports `restored` or `unrestored` accordingly
  (`Publish.Publisher.TakeBack`); `Publish.Publisher.TakeBackWithoutNotes` is a
  release that is lost.  `restored` always means the exact original.
* **Two prepared files with the same name.**  Only the first gets an upload, and the publication is put back.  When
  nothing goes wrong outside the program, and no asset and no local file has a name that the program gives out itself,
  this is the only reason to fail: the outcome is `published` for distinct names and `restored` otherwise
  (`Publish.Publisher.Publish`); `Publish.Publisher.PublishTwoOfOneName` is such a pair.
* **A manifest that cannot be written after a failed attempt** ends the publication before anything is put back.  The
  release then stays exactly as the failure left it, with the status `running`; and it has that status after a failed
  attempt only then (`Publish.Publisher.TakeBack`).  `Publish.Publisher.TakeBackUnwritten` is a file left between its two
  renames.  As long as the manifest can be written, `running` means that the release was not touched, whatever replies
  were lost (`Publish.Publisher.Publish`).
* **The set of proposals being written** never has to turn a review away: while a review is under way its proposal
  has a status that cannot be reviewed (`Review.UnderWayIsNotReviewable`).
* **The locator pattern** takes four digits, so the round trip holds exactly for legal roles and fewer than ten
  thousand duplicates (`Locator.ParsePrinted`); an observation stops far below that.

Two things would go wrong with temporary rows elsewhere in a transcript, because `extract` asks for a hundred rows and drops
the temporary ones afterwards: a page of nothing but temporary rows ends the loop in front of the final rows behind it
(`Extract.HundredTemporaryRowsBlock`; `Extract.Extraction.Extract` says exactly which rows are missed), and a full page with
one temporary row is taken for the last, so that its checkpoint is marked as final too early
(`Extract.OneTemporaryRowMisleads`; exactly then, by `Extract.MarkDecides`).  What `transcribe` writes has neither.  It has at
most one temporary row, and that is the last (`Transcript.Run`, `Transcript.TranscriptIsOrdered`), so that a final analysis
that goes through covers everything behind its starting checkpoint, a reconciliation every final row, and no checkpoint is
marked too early (`Transcript.Analyse`).

## Model

| member | source | states |
|---|---|---|
| Resampling.Resampler.ReadyStable | extensions/meeting/src/audio.ts:247-271 | the output samples settled so far are the first samples of the final output, whatever is heard later |
| Resampling.Resampler.SettledWithinThrough | extensions/meeting/src/audio.ts:247-251 | a sample that passes the look-ahead test is one of the rounded number of samples a final conversion makes |
| Resampling.Resampler.HistoryReaches | extensions/meeting/src/audio.ts:254-263 | the oldest input a sample looks at has been heard |
| Conversion.ThroughRounds | extensions/meeting/src/audio.ts:247-247 | the number of outputs is the length of the input at the new rate, rounded to the nearest, and up from halfway |
| Conversion.WindowIs | extensions/meeting/src/audio.ts:245-254 | the loop over the kernel runs over exactly the inputs at most `ceil(24 / cutoff)` away from the output's position |
| Conversion.WindowIsUnique | extensions/meeting/src/audio.ts:245-254 | there is only one such radius and one such window |
| Conversion.SettledIs | extensions/meeting/src/audio.ts:250-251 | an output waits until the input reaches a radius beyond its position |
| Conversion.BatchIsMean | extensions/meeting/src/audio.ts:252-267 | every output is the mean of the inputs near it, weighted by the kernel and cut to [-1, 1], the input being continued at its ends; at the same rate the input is left alone |
| Conversion.BatchIsBounded | extensions/meeting/src/audio.ts:267-267 | no converted sample leaves [-1, 1] |
| Conversion.ConstantStays | extensions/meeting/src/audio.ts:252-267 | a constant within [-1, 1] comes out as itself |
| Conversion.ImpulseGivesKernel | extensions/meeting/src/audio.ts:252-267 | a single sample comes out as the kernel around it over the kernel's sum, and as zero further away |
| Conversion.BatchIsConversion | extensions/meeting/src/audio.ts:237-269 | all of that of a whole conversion |
| Windowing.Windows.SpansAreWindowing | extensions/meeting/src/audio.ts:281-310 | the windows start at zero, full ones overlap by exactly the overlap, at most the last is shorter, and together they cover the output |
| Windowing.Windows.WindowingIsUnique | extensions/meeting/src/audio.ts:281-310 | those conditions have exactly one solution, and it is the windows that are cut |
| Windowing.Windows.FreshTotalIsReach | extensions/meeting/src/audio.ts:299-300 | counting only what each window adds counts every sample once |
| Segments.EmissionGrows | extensions/meeting/src/audio.ts:281-304 | hearing more, or finishing, only appends chunks; none that was cut changes |
| Streaming.Interpolate | extensions/meeting/src/audio.ts:252-267 | one sample computed from the retained history is the sample computed from the whole input, and no index misses the history |
| Streaming.HistoryKept | extensions/meeting/src/audio.ts:261-263 | what is retained reaches back to the oldest index any remaining sample needs: "Missing audio resampler history" cannot be thrown |
| Streaming.ConvertLoop | extensions/meeting/src/audio.ts:245-269 | the loop appends exactly the batch samples from where it stood to the settled (or, at the end, the final) count |
| Streaming.Convert | extensions/meeting/src/audio.ts:237-279 | a conversion leaves the batch output so far and drops only history that no later conversion reads |
| Streaming.CutWindow | extensions/meeting/src/audio.ts:288-303 | one turn of `emit` takes the next chunk of the batch and moves offsets and output accordingly |
| Streaming.Emit | extensions/meeting/src/audio.ts:281-310 | `emit` appends exactly the batch chunks that are due, and on the final call leaves nothing behind |
| Streaming.Finish | extensions/meeting/src/audio.ts:149-152 | converting and emitting a copy to the end yields exactly the chunks still owed and an empty record |
| Streaming.Feed | extensions/meeting/src/audio.ts:137-142 | feeding a packet leaves the record of the longer input and appends exactly the chunks it adds |
| Streaming.RecordIsUnique | extensions/meeting/src/audio.ts:22-35 | every field of a source record is determined by what was heard, however it was cut into packets |
| AudioHistory.HeardEmits | extensions/meeting/src/audio.ts:109-142 | continuing, or ending one segment and starting another, emits exactly what the history requires |
| AudioHistory.FaithfulAccepts | extensions/meeting/src/audio.ts:114-157 | after an accepted packet the chunks of every source are still the batch chunks of its segments |
| AudioHistory.FaithfulCloses | extensions/meeting/src/audio.ts:176-182 | the same after a source is finalized |
| Admission.Configure | extensions/meeting/src/audio.ts:60-78 | exactly which options are refused; the others give a window and an overlap to half a sample, and the capacity asked for or one that holds a chunk |
| Admission.Validate | extensions/meeting/src/audio.ts:215-226 | an input that passes is a legal packet of the current capture, sample for sample |
| Admission.ValidateRoundTrip | extensions/meeting/src/audio.ts:215-226 | exactly the legal packets of the current capture pass, as themselves |
| Admission.RecallDecides | extensions/meeting/src/audio.ts:89-101 | a lookup in the replay window finds a packet exactly when one of its number is among the last 256, and finds that packet itself exactly when it is unchanged |
| Admission.RememberKeepsLastFew | extensions/meeting/src/audio.ts:159-162 | dropping the oldest key when there are too many keeps exactly the last 256 accepted packets |
| Admission.HeardKeepsSamples | extensions/meeting/src/audio.ts:109-140 | one accepted packet adds exactly its samples, across gaps |
| AudioLog.ToldSuperseded | extensions/meeting/src/audio.ts:115-136 | only the last segment of a source is still open |
| AudioLog.ToldKeepsSamples | extensions/meeting/src/audio.ts:109-180 | over all packets and flushes, the segments hold every accepted sample once and in order |
| AudioLog.LoggedAccepts | extensions/meeting/src/audio.ts:109-162 | after an accepted packet the segments are still the ones the log calls for |
| AudioLog.LoggedEnds | extensions/meeting/src/audio.ts:176-181 | the same after a flush |
| AudioGaps.SegmentsAreOfMembers | extensions/meeting/src/audio.ts:117-140 | a segment starts where its first packet does and holds all samples of its packets, which have one rate |
| AudioGaps.FollowsIs | extensions/meeting/src/audio.ts:109-113 | the discontinuity test fails exactly for the next number, the same rate, and a start within half a sample of where the packets of the segment have ended |
| AudioGaps.NeighboursShare | extensions/meeting/src/audio.ts:109-136 | two neighbouring packets are in one segment exactly when no flush lies between them and the second passes those three tests |
| AudioGaps.ToldIsCutRightly | extensions/meeting/src/audio.ts:109-140 | the segments of any log are those of their packets, cut exactly there |
| AudioGaps.ReportedTook | extensions/meeting/src/audio.ts:163-168 | a gap is reported with a packet exactly when it is not the first of its source and fails one of the three tests |
| Admission.Stage | extensions/meeting/src/audio.ts:109-142 | the staged record, chunks and discontinuity are those the history prescribes; nothing is changed yet |
| Admission.FinishAll | extensions/meeting/src/audio.ts:146-153 | finishing every source yields the chunks still owed in order and leaves no buffered seconds in any source |
| Admission.Fitting | extensions/meeting/src/audio.ts:143-155 | the two tests pass exactly when the state fits the capacity now and once everything is finalized |
| Admission.FitsShift | extensions/meeting/src/audio.ts:327-328 | consuming a chunk keeps the capacity, now and once finalized |
| Admission.QueuedStep | extensions/meeting/src/audio.ts:314-329 | a head chunk leaves after a success or because it is silent, a failed one stays; the seconds move with it |
| Audio.Create | extensions/meeting/src/audio.ts:60-78 | there is a processor exactly for acceptable options, and it starts empty |
| Audio.AudioProcessor.constructor | extensions/meeting/src/audio.ts:45-78 | a new processor is in the empty state and satisfies every invariant below |
| Audio.AudioProcessor.Replay | extensions/meeting/src/audio.ts:89-101 | an identical replay of one of the last 256 answers "duplicate", any other old or altered number is rejected, a new one passes |
| Audio.AudioProcessor.Press | extensions/meeting/src/audio.ts:102-108 | failed inference, a full buffer and a clock that regresses are refused, in that order |
| Audio.AudioProcessor.Admit | extensions/meeting/src/audio.ts:109-169 | a packet goes in whole or nothing changes; it goes in exactly when it fits now and after a flush |
| Audio.AudioProcessor.Accept | extensions/meeting/src/audio.ts:86-170 | the complete answer for every input, with an unchanged state for every answer but "accepted" |
| Audio.AudioProcessor.Deal | extensions/meeting/src/audio.ts:323-328 | the head chunk is skipped, consumed or kept, and the whole state is otherwise the same |
| Audio.AudioProcessor.Advance | extensions/meeting/src/audio.ts:312-330 | silent chunks leave at once, up to the first with speech, which is offered and stays |
| Audio.AudioProcessor.Drain | extensions/meeting/src/audio.ts:186-194 | a running drain is shared, a failed one is repeated only on request, a started one clears the error |
| Audio.AudioProcessor.ChunkFailed | extensions/meeting/src/audio.ts:323-326 | a rejected callback leaves the chunk at the head and records the error |
| Audio.AudioProcessor.ChunkDone | extensions/meeting/src/audio.ts:327-329 | a resolved callback removes the head, counts its seconds and goes on |
| Audio.AudioProcessor.Cleared | extensions/meeting/src/audio.ts:190-192 | the running promise is forgotten, nothing else changes |
| Audio.AudioProcessor.Finalize | extensions/meeting/src/audio.ts:175-182 | every source is finished and its remaining chunks are queued, within the capacity |
| Audio.AudioProcessor.BeginClose | extensions/meeting/src/audio.ts:196-198 | closing is marked once |
| Audio.AudioProcessor.EndClose | extensions/meeting/src/audio.ts:199-203 | after the flush, sources, replays and the capture are forgotten; queued chunks stay |
| AudioState.PacketSound | extensions/meeting/src/audio.ts:156-168 | accepting a packet keeps the whole invariant |
| AudioState.StepSound | extensions/meeting/src/audio.ts:314-329 | so does dealing with the head chunk |
| AudioState.FinalizeSound | extensions/meeting/src/audio.ts:172-184 | so does finalizing every source: a flush never overruns the buffer |
| AudioState.ShutSound | extensions/meeting/src/audio.ts:196-204 | so does closing |
| AudioTheorems.ClosedSegmentIsBatch | extensions/meeting/src/audio.ts:237-310 | a finished segment's chunks are: convert the whole input once, every output the mean described above, cut it into the one good set of windows, each stamped with its time and rate; their seconds add up to the output's length |
| AudioTheorems.ContiguousIsOneSegment | extensions/meeting/src/audio.ts:109-140 | packets that follow each other are one segment with all their samples |
| AudioTheorems.OneSoundIsOneSegment | extensions/meeting/src/audio.ts:109-180 | a source that took contiguous packets and was then finalized has one closed segment with all their samples |
| AudioTheorems.FragmentationIsInvisible | extensions/meeting/src/audio.ts:137-142 | in any two reachable states, a source that took the same sound, however cut into packets and whatever else went on, and was finalized, has emitted the same chunks |
| AudioTheorems.ReplayIsDuplicate | extensions/meeting/src/audio.ts:97-101 | a packet that was just accepted is recognised when it comes again |
| AudioTheorems.OldNumbersAre | extensions/meeting/src/audio.ts:89-101 | in every reachable state: one of the last 256 packets again is a duplicate, one of their numbers with anything else is a changed duplicate, an older number has expired |
| AudioTheorems.TakenExactly | extensions/meeting/src/audio.ts:88-155 | in every reachable open state a packet is taken exactly when nothing has failed, its number is larger than all before, it starts no earlier than half a sample before its source has ended, and the capacity, with a tolerance of a billionth, holds with its samples, with the chunks they make due, and after a flush |
| AudioTheorems.ChunkIdsAreUnique | extensions/meeting/src/audio.ts:291-293 | over a whole run no two chunks have the same id |
| AudioTheorems.SoundMeansBatches | extensions/meeting/src/audio.ts:86-170 | in every reachable state, open or closed, each source's segments are those its packets and flushes call for, hold every accepted sample, are closed but for the last, and its chunks are their batch chunks |
| AudioTheorems.FlushedIsOut | extensions/meeting/src/audio.ts:172-184 | after a flush everything ever accepted is out: each segment as one batch, and the seconds add up to the output |
| AudioTheorems.OverMeansOut | extensions/meeting/src/audio.ts:196-204 | the same in every closed state |
| AudioTheorems.SoundMeansInOrder | extensions/meeting/src/audio.ts:312-330 | in every reachable state chunks left in emission order, each after one success or because voice detection is on and it is silent, and processed plus pending seconds are the emitted ones |
| AudioTheorems.SoundMeansWithin | extensions/meeting/src/audio.ts:144-155 | in every reachable state the buffered seconds are within the capacity, and would be after finalizing |
| AudioTheorems.SoundMeansReplaySafe | extensions/meeting/src/audio.ts:89-163 | in every reachable state the numbers taken from a source increase, so none was taken twice, and the replay window of an open processor is the last 256 packets taken |
| AudioTheorems.SoundMeansCutAtGaps | extensions/meeting/src/audio.ts:109-168 | in every reachable state the segments of a source are cut exactly where its packets call for it, and the gaps reported for it are exactly its later packets that fail one of the three tests, in order |
| AudioTheorems.Run | extensions/meeting/src/audio.ts:86-204 | those guarantees, replays and gaps included, hold after any interleaving of packets, drains, callback outcomes, flushes and closing; once closed, everything is out |
| AudioFlush.FlushTail | extensions/meeting/src/audio.ts:172-194 | whatever happens while the last drain of a `flush` is awaited: when it settles without a failure nothing waits, unless the drain was that of a loop already over and there was something to flush, and only then |
| AudioFlush.ClosedForGood | extensions/meeting/src/audio.ts:186-204 | once closed and without a callback outstanding, no event reaches what still waits |
| AudioFlush.Strand | extensions/meeting/src/audio.ts:172-204 | two drains with nothing to do, in front of the end of a `flush`: what the sources still owe is queued, and closing leaves it there |
| Worklet.MeetingPCM.constructor | extensions/meeting/view/worklet.js:2-16 | a quarter second of buffer, nothing captured |
| Worklet.MonoIsBounded | extensions/meeting/view/worklet.js:39-42 | a mono sample is within [-1, 1] |
| Worklet.MonoOfEqual | extensions/meeting/view/worklet.js:39-42 | a single channel, or channels that agree, give their sample, or the nearest end of [-1, 1] |
| Worklet.MonoOfTwo | extensions/meeting/view/worklet.js:39-42 | two channels give their average |
| Worklet.MonoOfNothing | extensions/meeting/view/worklet.js:39-42 | no channel, a missing frame and a value that is no number are silence |
| Worklet.MeetingPCM.Emit | extensions/meeting/view/worklet.js:17-32 | the buffered samples leave as one frame with the next number and an adjoining time |
| Worklet.MeetingPCM.Push | extensions/meeting/view/worklet.js:39-44 | a sample is kept, and a full buffer leaves as a full frame |
| Worklet.MeetingPCM.Process | extensions/meeting/view/worklet.js:33-47 | what was posted and what is buffered are together the clamped mono input so far |
| Worklet.MeetingPCM.Flush | extensions/meeting/view/worklet.js:10-15 | after a flush the posted frames are all of the input, and the last message says so |
| Worklet.Capture | extensions/meeting/view/worklet.js:10-47 | a whole capture: the posted frames are numbered, adjoin, and hold the clamped mono input of all blocks |
| Worklet.NumberedRenamed | extensions/meeting/view/worklet.js:20-30 | the capture id under which a page sends the frames changes nothing else about them |
| Pipeline.CapturedIsOneSegment | extensions/meeting/view/worklet.js:20-30 | the frames of a capture, in order, are one segment from time zero: no discontinuity |
| Pipeline.CaughtVerdict | extensions/meeting/src/audio.ts:102-155 | the next frame of a capture is accepted, or refused only for a failed consumer or a full buffer |
| Pipeline.Deliver | extensions/meeting/src/audio.ts:87-169 | offering frames in order, each until it is taken, among drains and the other source's packets: an offer that is not taken is refused, never as a replay or for its time, never as invalid when the frames are legal and of the current capture, never for closing when nobody closes; no gap is reported, and as many input samples are counted as were taken |
| Pipeline.CapturedLegal | extensions/meeting/src/audio.ts:215-226 | what the worklet captures under a legal id, from a known source, at a legal rate is legal, frame by frame |
| Pipeline.CaptureThrough | extensions/meeting/view/worklet.js:10-47 | from the audio graph to the processor: a legal capture is refused only for pressure, a failed consumer or closing, and once every posted frame is taken there is one segment with exactly the clamped mono input, no gap, and the input count is the worklet's frame count |
| Delivery.Delivery.Send | extensions/meeting/view/delivery.js:63-73 | a message is queued, or refused when closed or when 32 wait, which closes the queue |
| Delivery.Delivery.Close | extensions/meeting/view/delivery.js:74-79 | closing rejects everything that waits, once |
| Delivery.Delivery.FetchSettled | extensions/meeting/view/delivery.js:20-32 | a reply is looked at only while open |
| Delivery.Delivery.BodySettled | extensions/meeting/view/delivery.js:32-54 | only an accepted or stopping answer acknowledges; "busy" is reported; anything else closes the queue |
| Delivery.Delivery.Reported | extensions/meeting/view/delivery.js:39-51 | after the fourth busy answer the queue closes, before that it waits |
| Delivery.Delivery.Waited | extensions/meeting/view/delivery.js:18-41 | after waiting the same message is posted again, unless closed |
| Delivery.Delivery.Acknowledged | extensions/meeting/view/delivery.js:52-60 | the next message is posted only after this acknowledgement |
| Delivery.Delivery.Stopped | extensions/meeting/view/delivery.js:55-58 | a stop from the backend closes the queue |
| Delivery.ResolvedAre | extensions/meeting/view/delivery.js:52-53 | the acknowledged messages are the first ones sent, in order |
| Delivery.RejectedAre | extensions/meeting/view/delivery.js:9-9 | the rejected messages are the ones right behind them |
| Delivery.SettledOnce | extensions/meeting/view/delivery.js:53-78 | no promise settles twice |
| Delivery.PostedInTurn | extensions/meeting/view/delivery.js:15-29 | a message is posted only after every earlier one was acknowledged, and never once closed |
| Delivery.PostedAtMostFour | extensions/meeting/view/delivery.js:18-18 | no message is posted more than four times |
| Delivery.Run | extensions/meeting/view/delivery.js:1-81 | over any interleaving: at most 32 wait, and sent are the acknowledged, the rejected and the waiting |
| Renames.UndoIsExact | script/release-publish.ts:198-199 | replaying renames in reverse never meets an occupied name and restores every name |
| Renames.PlanRuns | script/release-publish.ts:149-164 | every rename of a prepared swap is accepted, and the names afterwards are the published ones |
| Renames.AnyPrefixUndoes | script/release-publish.ts:149-199 | a swap can be undone exactly from wherever it stops |
| Renames.ChecksumsLastThroughout | script/release-publish.ts:149-164 | at every point of a swap the new checksums are public only when every other new file is |
| Renames.ChecksumsAre | script/release-publish.ts:149-151 | the checksums files are exactly the names that are something followed by `-checksums.txt` |
| Renames.ReservedAre | script/release-publish.ts:72-72 | the names of an earlier publication are exactly those that start with `staged-` or `prior-` |
| Remote.Remote.Rename | script/release-publish.ts:278-290 | a rename that returns happened; one that throws did not, if the asset can be read |
| Remote.Remote.Remove | script/release-publish.ts:291-296 | a removal that returns leaves the asset gone; one that throws while assets can be read left it there |
| Staging.StagedIsPrepared | script/release-publish.ts:115-141 | a staging that goes through leaves the release as the swap needs it |
| Staging.PlanIsSafe | script/release-publish.ts:149-164 | the planned renames can be undone from anywhere, with the checksums last throughout |
| Staging.PublishedByPlan | script/release-publish.ts:149-164 | at the end of the plan every upload is under its public name |
| Staging.AllThrough | script/release-publish.ts:122-136 | with every file uploaded, an entry has no upload exactly when its name came up before |
| Staging.Filled | script/release-publish.ts:207-212 | an edit puts the original metadata back exactly when it had a title and notes |
| Publish.Publisher.StageOne | script/release-publish.ts:122-131 | an upload is identified by its reply or by its name, is new and complete; the originals are untouched |
| Publish.Publisher.Check | script/release-publish.ts:132-140 | when it passes, every file is uploaded completely under its staged name with its own content |
| Publish.Publisher.Stage | script/release-publish.ts:115-141 | staging touches no original, and what it leaves is identified; with a willing server it fails exactly for two files of the same name |
| Publish.Publisher.Step | script/release-publish.ts:155-158 | the log records a rename exactly when it returned, and only names change |
| Publish.Publisher.SwapOne | script/release-publish.ts:152-164 | one file's renames move the release one or two steps along the plan |
| Publish.Publisher.Swap | script/release-publish.ts:143-165 | every intermediate state is on the plan, and the log says how far, if a throwing rename did not happen; a willing server never finds a name occupied |
| Publish.Publisher.SwapDelivers | script/release-publish.ts:149-164 | after a swap that went through every public name is the checked upload |
| Publish.Publisher.Announce | script/release-publish.ts:167-175 | an edit counts exactly when the release reads as wanted, if it can be read |
| Publish.Publisher.Verify | script/release-publish.ts:177-190 | when it passes, every public name is the staged asset with the file's digest where one is stated, and the release is latest |
| Publish.Publisher.UndoRenames | script/release-publish.ts:198-199 | undoing stays on the plan and never meets an occupied name; when it goes through every name is the original one |
| Publish.Publisher.RestoreMeta | script/release-publish.ts:200-212 | a willing server is left with the original metadata when it was not touched, and with what an edit can put back when it was |
| Publish.Publisher.RestoreLatest | script/release-publish.ts:213-214 | the release that was latest is latest again |
| Publish.Publisher.Clear | script/release-publish.ts:215-215 | every identified upload is gone and no original is |
| Publish.Publisher.Inspect | script/release-publish.ts:216-223 | when it passes, every original name is on its original asset and title and notes are the original ones |
| Publish.Publisher.Try | script/release-publish.ts:88-95 | whatever fails, the release is left where it can be taken back from; with nothing failing outside, it goes through exactly for distinct names |
| Publish.Publisher.Restore | script/release-publish.ts:192-224 | when it returns, names, metadata and "latest" are the original ones and no identified upload is left; with a willing server it returns if and only if the metadata was not touched or had a title and notes |
| Publish.Publisher.TakeBack | script/release-publish.ts:102-112 | after a failure that can be noted in the manifest the release is put back or the status says that it could not be, with a willing server and no file under a name the program gives out exactly when its metadata was untouched or had title and notes; when the note fails, and only then, the status stays `running` and the release as it is |
| Publish.Publisher.PutBack | script/release-publish.ts:102-112 | the same, for each outcome of that write |
| Publish.Publisher.TakeBackWithoutNotes | script/release-publish.ts:200-223 | a release that had no notes, once new ones are announced, ends as `unrestored` |
| Publish.Publisher.TakeBackUnwritten | script/release-publish.ts:102-103 | an original under its second name keeps it when the failure cannot be noted |
| Publish.Publisher.Publish | script/release-publish.ts:41-113 | under any lost replies: no original is ever deleted; `published`, `restored` and `refused` each mean what they say, and `running` that nothing was touched while the manifest can be written; in no intermediate state is a file ending in `-checksums.txt` public while one that does not is not; with nothing failing outside, the names alone decide the outcome; a willing server leaves `unrestored` only to a release without title or notes |
| Publish.Publisher.PublishTwoOfOneName | script/release-publish.ts:115-131 | two files of one name end as `restored` though nothing goes wrong outside |
| Review.AtMostOnce | extensions/meeting/src/intelligence.ts:490-496 | the write for a proposal is sent at most once |
| Review.OnlyWhatWasApproved | extensions/meeting/src/intelligence.ts:436-496 | it is sent with the approved content, right after an approval of it, which is in the store, and a read that found the expected revision and content |
| Review.NothingWasSent | extensions/meeting/src/intelligence.ts:520-527 | `failed`, `manual` and every other status that is not about a write mean that none was sent |
| Review.AppliedMeans | extensions/meeting/src/intelligence.ts:497-504 | `applied` means that the write was sent and the approved content read back under a new revision |
| Review.UnderWayIsNotReviewable | extensions/meeting/src/intelligence.ts:431-434 | a proposal under review cannot be reviewed |
| Review.RefusalIsFinal | extensions/meeting/src/intelligence.ts:431-447 | a refusal is the last thing that happens to a proposal, which stays rejected and was never written |
| Review.MeetingIntelligence.Begin | extensions/meeting/src/intelligence.ts:428-447 | a decision is stored with its status or not at all, and with a store that works exactly for a proposal that is pending, manual or failed; a review gets under way exactly for an approval whose server is bound to a writer, and no other is affected |
| Review.MeetingIntelligence.Dispatch | extensions/meeting/src/intelligence.ts:448-455 | without a writer the proposal is left to a human |
| Review.MeetingIntelligence.ToolsSettled | extensions/meeting/src/intelligence.ts:453-476 | the review goes on exactly when the writer takes a revision |
| Review.MeetingIntelligence.ReadSettled | extensions/meeting/src/intelligence.ts:477-490 | the proposal is marked as applying exactly after a matching read, as stale after another, as failed after none, if the store can be written |
| Review.MeetingIntelligence.OpeningSettled | extensions/meeting/src/intelligence.ts:180-184 | the write leaves exactly when the writer is still there; otherwise the proposal is uncertain |
| Review.MeetingIntelligence.WriteSettled | extensions/meeting/src/intelligence.ts:491-519 | a failed write leaves the proposal uncertain, and nothing is sent again |
| Review.MeetingIntelligence.ReadBackSettled | extensions/meeting/src/intelligence.ts:497-519 | the proposal is applied exactly when the approved content is read back under a new revision, and uncertain otherwise, if the store can be written |
| Review.MeetingIntelligence.Abandon | extensions/meeting/src/intelligence.ts:520-527 | only an unused approval is marked as failed |
| Review.MeetingIntelligence.Integrate | extensions/meeting/src/intelligence.ts:315-355 | an extraction stores all of its changes to proposals or none |
| Review.IntegratedKeeps | extensions/meeting/src/intelligence.ts:316-332 | it changes only pending proposals that a newer revision overtakes, and adds only ids that are new |
| Review.MeetingIntelligence.Correct | extensions/meeting/src/runtime.ts:302-319 | a correction overtakes exactly supported proposals that are not about a write |
| Review.MeetingIntelligence.Restart | extensions/meeting/src/store.ts:438-466 | after a restart what was being written is uncertain, and nothing else changes |
| Review.Run | extensions/meeting/src/intelligence.ts:162-532 | over any interleaving of reviews, extractions, corrections and restarts, each write is sent at most once, after a matching read and with its approval in the store, and what was rejected stays so |
| Extract.AssembleContext | extensions/meeting/src/intelligence.ts:110-130 | the prompt is within the budget and holds the longest prefix of final rows that fits; each error exactly when that is impossible |
| Extract.RenderedIsJoined | extensions/meeting/src/intelligence.ts:116-118 | the length of a prompt is that of everything else and of the rows joined by commas |
| Extract.PageIsNext | extensions/meeting/src/intelligence.ts:280-282 | the final rows of a page are the next ones |
| Extract.RemainingMoves | extensions/meeting/src/intelligence.ts:314-314 | the cursor moves over exactly the rows that were analysed |
| Extract.Extraction.Turn | extensions/meeting/src/intelligence.ts:279-366 | one turn of the loop: its batch, its checkpoint, and whether it is the last; the checkpoint is marked as final only in a final analysis with nothing left behind it, unless a page is mixed, and lacks the mark in one only if rows are left or its page held a hundred final ones; no checkpoint is added without new rows but for want of a mark |
| Extract.MarkDecides | extensions/meeting/src/intelligence.ts:355-361 | a mark behind analysed rows is right if and only if their page is not mixed: full, with a temporary row on it, in front of more final rows |
| Extract.NeverMixed | extensions/meeting/src/intelligence.ts:279-282 | when only the last row may be temporary, no page is mixed |
| Extract.OneTemporaryRowMisleads | extensions/meeting/src/intelligence.ts:279-361 | one temporary row in front of a hundred final ones: a checkpoint marked as final with a row left behind it |
| Extract.BatchIsNext | extensions/meeting/src/intelligence.ts:307-314 | a batch is the next rows, so batches neither overlap nor skip |
| Extract.Extraction.Extract | extensions/meeting/src/intelligence.ts:260-376 | the loop ends, and goes through whenever generation succeeds and a row fits; its batches are consecutive; whether or not it goes through, every checkpoint it adds is marked as described for one turn; a final analysis that goes through ends with a final checkpoint, and covers everything behind the starting checkpoint exactly when no page of temporary rows is in the way |
| Extract.RemainingIs | extensions/meeting/src/intelligence.ts:280-282 | "everything" is each final row behind the cursor, once, in order |
| Extract.FewTemporaryRows | extensions/meeting/src/intelligence.ts:281-282 | with fewer than a hundred temporary rows nothing is in the way |
| Extract.OneTemporaryRowIsCovered | extensions/meeting/src/intelligence.ts:279-366 | with at most one temporary row a complete final analysis covers every remaining row and ends its last checkpoint behind them |
| Extract.HundredTemporaryRowsBlock | extensions/meeting/src/intelligence.ts:281-296 | a hundred temporary rows in front of a final one are, if the store is given them |
| Transcript.NextIsAbove | extensions/meeting/src/store.ts:304-313 | the next sequence is above that of every final row |
| Transcript.PromoteTidy | extensions/meeting/src/store.ts:267-302 | the last row may become final, and the transcript stays in order |
| Transcript.FinalizedTidy | extensions/meeting/src/runtime.ts:568-573 | the remembered row can always be made final, whether it is there, is final already, or was rolled back; afterwards every row is final |
| Transcript.RowFits | extensions/meeting/src/runtime.ts:484-500 | a result gets its row exactly when that row was not written before |
| Transcript.Transcriber.FinalizeProvisional | extensions/meeting/src/runtime.ts:568-573 | the remembered row becomes final and is forgotten, or nothing changes |
| Transcript.Transcriber.Start | extensions/meeting/src/runtime.ts:456-471 | before an inference every row is final; a chunk that is done is not transcribed again |
| Transcript.Transcriber.Settle | extensions/meeting/src/runtime.ts:471-529 | the rows of a chunk are written together and in order, the last one temporary, and the chunk is done, or nothing of that is stored; with a store that works it goes through exactly when none of its rows is there, and until a rollback leaves a row behind always |
| Transcript.Transcriber.FinalizeRecovered | extensions/meeting/src/runtime.ts:577-582 | every row is final afterwards, and none is added |
| Transcript.Retry | extensions/meeting/src/runtime.ts:456-529 | after a rollback the row that is still remembered is written as final, and a new attempt goes through if and only if it has no text for that row |
| Transcript.OneFailure | extensions/meeting/src/runtime.ts:456-529 | two sentences and one failure of the store: the second is in the transcript, and while it is found again the chunk is never done |
| Transcript.Run | extensions/meeting/src/runtime.ts:456-582 | over any transcriptions, failures and restarts the rows are in order, none comes twice, only the last may be temporary, and no stored row is lost, moved or changed but from temporary to final |
| Transcript.TranscriptIsOrdered | extensions/meeting/src/store.ts:315-322 | read back, such a transcript is in the order of the store and has at most one temporary row |
| Transcript.Analyse | extensions/meeting/src/intelligence.ts:260-376 | a final analysis of what was transcribed, if it goes through, covers everything behind its starting checkpoint, and a reconciliation every final row; whether or not it does, no checkpoint is marked as final in front of rows that are left |
| Glob.SplitsIsMatches | extensions/chrome/service-worker.js:1585-1604 | matching by trying every split agrees with filling each star with some text |
| Glob.NextStar | extensions/chrome/service-worker.js:1594-1596 | once a later star is reached, the earlier one needs no other filling |
| Glob.Backtrack | extensions/chrome/service-worker.js:1597-1599 | after a mismatch only a longer filling of the last star can help |
| Glob.AtEnd | extensions/chrome/service-worker.js:1602-1603 | at the end of the value only stars may be left |
| Glob.GlobMatch | extensions/chrome/service-worker.js:1585-1604 | the loop ends and answers true exactly when some filling of the stars is the value |
| Locator.DecodeEscape | extensions/chrome/service-worker.js:1610-1610 | a printed string literal reads back as the string (section 7 of RFC 8259) |
| Locator.EscapeIsWellFormed | extensions/chrome/service-worker.js:1330-1330 | whatever the name, also when it was cut inside a pair, a printed literal holds no half of a surrogate pair |
| Locator.EscapeKeeps | extensions/chrome/service-worker.js:1330-1330 | well-formed text without quotes, backslashes and control characters is printed as it is |
| Locator.ExecDecides | extensions/chrome/service-worker.js:40-40 | the pattern captures exactly the parts of which the text is composed |
| Locator.ParsePrinted | extensions/chrome/service-worker.js:1606-1615 | a printed locator reads back as its role, the first 128 code units of its name and its index, if and only if the role is legal and the index has at most four digits |
| Locator.PrintedIs | extensions/chrome/service-worker.js:1330-1336 | a locator, letter by letter, with the first 128 code units of the name |
| Locator.LegalRoleIs | extensions/chrome/service-worker.js:40-40 | a role has 1 to 64 units, none of them a bracket or a bar |
| Locator.StartsWithBase | extensions/chrome/service-worker.js:1331-1331 | a locator starts with another's base exactly when role and cut name are the same |
| Locator.Observe | extensions/chrome/service-worker.js:1305-1342 | the prefix count numbers elements by the equal ones before them, up to the limit |
| Locator.LocatorsIdentify | extensions/chrome/service-worker.js:1330-1336 | the locators of one observation are pairwise distinct and read back to their elements |
| EditDistance.ScriptOfCell | extensions/meeting/src/evaluate.ts:6-14 | a table cell is the length of some script from one text to the other |
| EditDistance.ScriptsAreNoShorter | extensions/meeting/src/evaluate.ts:6-14 | no script is shorter |
| EditDistance.NextRow | extensions/meeting/src/evaluate.ts:6-13 | one pass turns the row of a prefix into the row of the next one |
| EditDistance.ThaiEdits | extensions/meeting/src/evaluate.ts:4-14 | the last cell is the minimum over all scripts; texts beyond the limit are refused |
| EditDistance.EditDistanceIsMetric | extensions/meeting/src/evaluate.ts:27-27 | it is zero exactly for equal texts, symmetric, subadditive, and between the difference and the larger of the lengths |

## Left out

* Resampling.Resampler.Batch: samples and weights are exact reals and the kernel is any function of position and index; rounding and the trigonometry are not modelled, and a weight of zero gives zero instead of no number.
* Admission.Recall: the packet itself stands for its SHA-256 digest, so a collision is not modelled.
* AudioHistory.BufferedSeconds: the order of a JavaScript map is a list of names; a source is joined at its end.
* Admission.Quiet: the silence threshold is any predicate on samples.
* Streaming.Source: the record is a value, because the program always copies it before changing it; typed-array storage is a sequence.
* Audio.AudioProcessor.EndClose: runs only when every source is finalized, as it is once the flush before it has resolved.
* Pipeline.Deliver: a flush or the end of closing in the middle of a capture is not among the events that may come in between, since the capture is then over.
* Audio.AudioProcessor.Finalize: `flush` and `close` appear as their parts (drain, finalize, drain; mark, flush, forget), because anything may happen at each `await`; `push` is `Accept` and `Drain`.
* Remote.Remote: GitHub is a map of assets whose names are distinct and which nobody else writes to; requests, pages of a listing and replies that are not of the expected form are a reply or none.
* Publish.Publisher.Publish: an upload whose reply was lost and which no listing showed is not identified, so nothing is promised about it; the next publication then refuses the release.
* Publish.Publisher.Restore: with a server that is not willing nothing is promised about whether it returns.
* Staging.StagedFile: a file's digest and size are its content and the content's length.
* Review.MeetingIntelligence: findings, references, plans, deletion of meetings, the texts of errors and the wording of approvals are not part of this model; a proposal's id is any number.
* Extract.Rendered: a prompt is its length, that of each row and that of everything else; summaries, the findings that come back and how they are checked are not part of this model.
* Transcript.Transcriber: one meeting, one chunk at a time, as one audio processor hands them over; a retry for one meeting during the capture of another is not part of this model, nor are corrections of a row's text.
* Transcript.Transcriber.Settle: results are the texts that `reconcileOverlap` leaves, whatever it leaves; a repeated inference may leave others.
* Extract.Extraction: the transcript does not change during one analysis; `analyze`, which coalesces requests, is not part of this model.
* Locator.Observe: which nodes of the page are candidates is not part of this model.
* EditDistance.ThaiEdits: the selection of Thai characters, normalization and the recall of technical terms are not part of this model.
* `reconcileOverlap`, the rest of the extension, the bridge, the plugin, discovery, configuration, the worker, all web pages, fixtures and build scripts.
