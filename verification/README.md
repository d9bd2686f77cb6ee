# AURA: streaming, hot-swap and decision logic, verified

A Dafny model of the parts of the AURA wake-word engine whose correctness depends on many calls,
many threads or a whole signal, and proofs of what they promise. Each component is modelled in the
form its code has: objects that change in place are classes whose methods are proved against a
function of the old state, loops are loops with invariants, and the concurrent components have, next
to the class, a state machine with one step per atomic access and one inductive invariant. Samples,
scores, gains and phases are exact reals. `dafny verify dfyconfig.toml` checks everything.

| files | component |
|---|---|
| `Complex.dfy`, `Fft.dfy` | the in-place radix-2 transform |
| `GreedyDecision.dfy`, `StreamingDetector.dfy`, `StreamingEvents.dfy` | the counter policies as solutions of an optimisation problem |
| `ModelBooks.dfy`, `ModelManager.dfy`, `ModelSwapProtocol.dfy`, `ModelVersions.dfy` | model hot-swap with deferred unmapping |
| `Resampler.dfy`, `ResamplerResponse.dfy`, `AudioPipeline.dfy`, `AudioRuns.dfy`, `AudioLaws.dfy` | capture, rate conversion, slots, sink |
| `LockOrder.dfy`, `LockProtocol.dfy`, `LockReports.dfy` | the lock-level discipline |
| `RingBuffer.dfy`, `RingProtocol.dfy`, `RingAcquires.dfy` | the single-producer single-consumer ring |
| `DepLinter.dfy` | the dependency linter |
| `StreamingModel.dfy`, `StreamingConvolution.dfy` | the causal network, whole-clip and frame by frame |
| `Stage1Detector.dfy`, `Stage1Runs.dfy`, `Stage1Evidence.dfy`, `Stage1Events.dfy` | the detection cascade |
| `DspChain.dfy`, `DspParity.dfy`, `DspLaws.dfy` | the signal chain and its training-time counterpart |
| `CalibrationSidecar.dfy`, `SidecarLaws.dfy`, `SidecarRoundTrip.dfy` | the labels.json scanner |
| `LogMelExtractor.dfy`, `StreamingWindow.dfy` | frame extraction and the mirrored window |
| `Auroc.dfy` | the rank formula for AUROC |
| `Arithmetic.dfy`, `Ids.dfy`, `Wrappers.dfy` | shared facts and types |

## Findings

- `core/common/ring_buffer.h`, drop-oldest with a concurrent consumer: a reader that is between the
  two loads of `acquireRead` while the producer drops on an old value of tail can acquire a frame that
  the drop has already taken; its `commitRead` then moves tail past head. The bound `tail + holding <= head +
  pendingDrop` fails along a run exactly when some `acquireRead` in it was called on a ring holding no frame
  (every committed frame read or dropped), yet acquired one, and every write committed between its two loads
  was a dropping one (`ClaimHoldsIffNoRace`). A caller that
  calls `acquireRead` only on a ring with an unread frame is safe (`NonEmptyAcquireIsSafe`), and so is drop-newest, and
  so would be an `acquireRead` whose two loads were one. `OverrunIsReachable` builds a
  failing run for every capacity, and `OverrunStarves` shows the ring never recovers from it: `head - tail`
  wraps, every write drops, and a consumer whose acquires are not split by the producer is told "empty" for ever.
- `core/runtime/StreamingWindow.h:9-10` says its view matches the detector's window. For every sequence of inputs
  it does exactly when windowFrames rows are in, or every row so far is silent (`AgreesWithDetectorIff`): until
  then the detector fills from the front while the ring shows the newest row last. `DiffersBeforeFull` is a
  failing input of one row.
- `core/common/lockorder.cpp:37-43`: the first report is exact, neither missed nor spurious, but once a handler
  returns after it the run can deadlock (`ReportedRunCanDeadlock`). It never does so unannounced: whatever was
  reported before, threads that block one another for good include one whose own pending acquisition was reported
  (`DeadlockWasReported`), as long as no thread has tried to record a seventeenth entry.

## Model

| member | source | states |
|---|---|---|
| Fft.RealFft.PowerSpectrum | core/features/Fft.h:40-71 | the in-place passes leave, for every power-of-two size and real input, exactly the squared magnitudes of the textbook sum X[k] = sum of x[j] w^(jk), for k up to n/2 |
| Fft.RealFft.constructor | core/features/Fft.h:19-34 | the table is the bit-reversal permutation of the index width |
| Fft.RealFft.Load | core/features/Fft.h:41-44 | the buffer holds stage 0: the transforms of all blocks of length one |
| Fft.RealFft.Combine | core/features/Fft.h:50-64 | one block's butterflies with the running twiddle product are the butterfly of its two halves; nothing else changes |
| Fft.RealFft.Blocks | core/features/Fft.h:49-65 | one pass applies the butterfly to every block of the buffer |
| Fft.ReverseBits | core/features/Fft.h:27-32 | the shift loop computes the reversal |
| Fft.RevOfUnrev | core/features/Fft.h:23-33 | reversal has an inverse, so loading through it loses and repeats no sample |
| Fft.UnrevOfRev | core/features/Fft.h:23-33 | the other direction |
| Fft.BitReversalIsStageZero | core/features/Fft.h:41-44 | sample i belongs at the reversed index for the recursive even/odd splitting to come out in place |
| Fft.DanielsonLanczos | core/features/Fft.h:51-63 | a butterfly over the half-size transforms of the even and odd samples is the transform |
| Fft.PassAdvancesStage | core/features/Fft.h:45-66 | a pass at length 2^l turns stage l-1 into stage l |
| Fft.DftIsSum | core/features/Fft.h:38-39 | every bin of the recursive definition is the textbook sum |
| Fft.ConjugateSymmetry | core/features/Fft.h:67-70 | bin n-k is the conjugate of bin k, so the n/2+1 powers kept determine all n |
| GreedyDecision.Decide | evaluate.py:63-79 | the result is the largest number of blocks, a gap apart, of M gate-open positions at which both stages score at least their thresholds, stated on hp, s1, s2 and go themselves |
| GreedyDecision.BenchDecide | benchmarks/harness/bench_kws.py:96-117 | the same for the benchmark's loop with its one score and its own hop, M and refractory length |
| GreedyDecision.ScoredOptimum | evaluate.py:63-79 | some such choice has as many blocks as there are detections, and none has more |
| GreedyDecision.BenchOptimum | benchmarks/harness/bench_kws.py:96-117 | the same for the benchmark |
| GreedyDecision.GapIsLeast | evaluate.py:69-70 | the refractory counter enforces exactly max(1, ceil(refr/hop)) steps |
| GreedyDecision.StaysAhead | evaluate.py:63-79 | after the k-th block of any feasible choice the counters have fired at least k times |
| GreedyDecision.NoChoiceDoesBetter | evaluate.py:63-79 | no choice of sufficiently spaced blocks of M hits is larger than the number of detections |
| GreedyDecision.DetectionsAreOptimal | evaluate.py:63-79 | and the detections themselves are such a choice: the count is the maximum |
| GreedyDecision.DetectionsAreSpread | evaluate.py:63-79 | consecutive detections are at least gap + M - 1 steps apart |
| GreedyDecision.StricterNeverAdds | evaluate.py:63-79 | raising threshold, M or refractory length never adds a detection |
| GreedyDecision.SweepTradesOff | evaluate.py:63-79 | so down the sweep false accepts only fall and false rejects only rise |
| GreedyDecision.ThresholdsAreStricter | evaluate.py:73 | higher thresholds give a stricter observation of the same scores |
| StreamingDetection.StreamingDetector.PushFrame | core/detect/StreamingDetector.cpp:65-101 | new state and event are the specification's, on every path |
| StreamingDetection.StreamingDetector.Reset | core/detect/StreamingDetector.cpp:103-109 | everything is cleared except the id counter |
| StreamingDetection.FollowsGreedyPolicy | core/detect/StreamingDetector.cpp:80-100 | the countdown is the greedy policy with every frame open, stride one and a gap one frame longer |
| StreamingDetection.StreamingIsOptimal | core/detect/StreamingDetector.cpp:80-100 | the number of events is the largest possible number of spaced runs of M positive frames |
| StreamingDetection.EventsAreSpread | core/detect/StreamingDetector.cpp:80-100 | successive events are at least refractoryFrames + max(1, M) frames apart |
| StreamingDetection.IdsStrictlyIncrease | core/detect/StreamingDetector.cpp:45-48 | event ids are valid, carry the tag and strictly increase, across resets too |
| StreamingEvents.EmitsExactly | core/detect/StreamingDetector.cpp:65-109 | over any frames and resets an event is emitted exactly when the last M inputs are positive frames that all lie past the frames the last event since a reset suppresses; it carries that frame's score and timestamp |
| StreamingEvents.EmitsIff | core/detect/StreamingDetector.cpp:80-100 | the same in terms of the machine's own earlier events |
| StreamingEvents.ResetEndsCountdown | core/detect/StreamingDetector.cpp:103-109 | M positive frames right after a reset, or at the start, end in an event |
| ModelManagement.ModelManager.Stage | core/model/ModelManager.cpp:28-50 | handle, staged region and mapped set in all three outcomes; the handle is the region's, one generation on; an unactivated earlier region is released; what is served does not change |
| ModelManagement.ModelManager.Activate | core/model/ModelManager.cpp:52-69 | accepts exactly the staged handle; afterwards it is the active one, the one before is the previous one, both mapped; the one before that is retired and unmapped only when nothing is in flight |
| ModelManagement.ModelManager.Rollback | core/model/ModelManager.cpp:71-83 | possible exactly when there is a previous model; afterwards that is active again and mapped, no previous one is left, and the bad one is retired, or unmapped if nothing is in flight |
| ModelBooks.RollbackUndoesActivate | core/model/ModelManager.cpp:52-83 | rollback after activate, whatever is in flight at either moment, serves the handle and region from before, still mapped; the model activated in between is retired or unmapped |
| ModelBooks.ActivateServes | core/model/ModelManager.cpp:52-69 | after a successful activation the staged handle is served and the one before it is kept |
| ModelManagement.ModelManager.EndInference | core/model/ModelManager.cpp:95-101 | the last inference out unmaps all retired regions, earlier ones none |
| ModelManagement.ModelManager.TryUnmapRetired | core/model/ModelManager.cpp:107-113 | all or nothing, by the in-flight count |
| ModelManagement.ModelManager.Unmap | core/model/ModelManager.cpp:15-19 | the storage's unmap: callers must show that the region is mapped at that moment; the log records the call |
| ModelManagement.ModelManager.Destroy | core/model/ModelManager.cpp:13-20 | every region owned is unmapped exactly once, each while it is mapped; afterwards nothing is mapped and unmap calls and mappings made agree address by address |
| ModelBooks.DestructorUnmapsMapped | core/model/ModelManager.cpp:13-20 | previous, active and staged region are still mapped when their turn comes, and nothing is after the last |
| ModelBooks.DestroyedIsClean | core/model/ModelManager.cpp:13-20 | from balanced books the destructor leaves nothing mapped and as many unmaps as mappings of each address |
| ModelSwapProtocol.StepKeepsInv | core/model/ModelManager.cpp:28-113 | every atomic step of the swapper and of any reader keeps the invariant, although the in-flight count is changed outside the lock |
| ModelSwapProtocol.RunKeepsInv | core/model/ModelManager.cpp:28-113 | hence every interleaving does |
| ModelSwapProtocol.HeldRegionsStayMapped | core/model/ModelManager.cpp:85-113 | a region obtained from current() inside a bracket is mapped for as long as the bracket is open |
| ModelSwapProtocol.HeldUntilEnd | core/model/ModelManager.cpp:90-101 | only the reader's own endInference gives it up |
| ModelSwapProtocol.OwnershipAtRelease | core/model/ModelManager.cpp:28-113 | with the lock free the mapped regions are exactly the disjoint union of staged, active, previous, retired and the one being staged |
| ModelSwapProtocol.UnmappedAtMostOnce | core/model/ModelManager.cpp:28-113 | at any point of any run before destruction each mapping has been unmapped at most once, and is mapped exactly until then |
| ModelSwapProtocol.StepUnmapsMapped | core/model/ModelManager.cpp:28-113 | no step of any thread unmaps an address that is not mapped, nor one twice |
| ModelSwapProtocol.UnmappedOnceOverall | core/model/ModelManager.cpp:13-113 | over a whole life, any run until all threads are idle and then the destructor, every mapping made is unmapped exactly once and nothing stays mapped |
| ModelSwapProtocol.QuiescenceLeavesNothingRetired | core/model/ModelManager.cpp:95-113 | once all threads are idle no retired region is left |
| ModelSwapProtocol.RetiredIsOwed | core/model/ModelManager.cpp:95-113 | nothing in flight and something retired means some thread still owes a tryUnmapRetired |
| ModelVersions.ActivatedIsServed | core/model/ModelManager.cpp:52-88 | in every interleaving, from a successful activation to the next successful swap the active handle is the one activated, and its region is mapped |
| ModelVersions.CurrentReturnsActive | core/model/ModelManager.cpp:85-88 | a reader holding the lock in current() is handed the active region |
| ModelVersions.RollbackUndoesActivate | core/model/ModelManager.cpp:52-83 | in every interleaving a rollback after an activation brings back what was served before it, mapped, and retires the model in between |
| ModelVersions.NoSecondRollback | core/model/ModelManager.cpp:71-83 | after a rollback the next successful swap is an activation |
| ModelVersions.RetiredIsUnmappedByRest | core/model/ModelManager.cpp:95-113 | whatever was retired at some point has been unmapped once all threads are idle |
| Resampling.Resampler.Process | core/audio/Resampler.h:40-75 | outputs and carried state of one call; equal rates pass through up to the capacity |
| Resampling.Resampler.Emit | core/audio/Resampler.h:51-63 | the producing loop, stopping for capacity or for input |
| Resampling.Resampler.Tap | core/audio/Resampler.h:55-61 | the tap loop is the normalised sum over the 16 samples around the position; its edge test never skips a tap; what that sum is, is ResamplerResponse.OutputIsSuperposition |
| Resampling.Resampler.Reset | core/audio/Resampler.h:34-37 | zero context, phase at the first real sample |
| Resampling.CallIsIdeal | core/audio/Resampler.h:40-75 | a call emits the next outputs of the whole-signal sequence and leaves the carry a suffix of the padded signal, at most 15 samples if room was left |
| Resampling.OutputsAreIdeal | core/audio/Resampler.h:34-75 | for any blocks and capacities the outputs so far are a prefix of the sequence taken at 16 + k * in/out of the padded whole signal |
| Resampling.ChunkingIsInvisible | core/audio/Resampler.h:34-75 | two runs over the same signal agree as far as both have produced |
| Resampling.InRangeIff | core/audio/Resampler.h:53-54 | output k exists exactly when k * in < (n - 8) * out |
| Resampling.OutputCount | core/audio/Resampler.h:51-73 | with room left exactly ceil((n - 8) * out/in) outputs exist after n > 8 inputs, and the carry is at most 15 |
| ResamplerResponse.OutputIsSuperposition | core/audio/Resampler.h:51-61 | every output is the sum over the whole signal of each sample times its weight over the sum of the sixteen weights, zero outside floor(p) - 7 .. floor(p) + 8; a sum of at most 1e-9 is not divided by |
| ResamplerResponse.ImpulseResponse | core/audio/Resampler.h:54-60 | the response to a signal that is 1 at i and 0 elsewhere |
| ResamplerResponse.OutputIsLinear | core/audio/Resampler.h:54-60 | outputs are linear in the signal |
| ResamplerResponse.RunIsSuperposition | core/audio/Resampler.h:34-75 | for any blocks and capacities, output k is that sum over all samples fed, at position k * in/out of the signal |
| AudioPipelines.AudioPipeline.OnCaptureFrame | core/audio/AudioPipeline.cpp:35-88 | new state of converter and ring: downmix, convert on a foreign rate, slot |
| AudioPipelines.AudioPipeline.Downmix | core/audio/AudioPipeline.cpp:38-56 | the first channel of at most 512 frames, shorts divided by 32768 |
| AudioPipelines.AudioPipeline.Resample | core/audio/AudioPipeline.cpp:58-72 | the converter of this rate, a new one exactly on a change of rate |
| AudioPipelines.AudioPipeline.WriteSlots | core/audio/AudioPipeline.cpp:74-87 | slots of at most 512; a full ring drops its oldest slot or the rest of the block |
| AudioPipelines.AudioPipeline.Drain | core/audio/AudioPipeline.cpp:138-146 | the sink gets everything pending, oldest first |
| AudioRuns.NeverTruncates | core/audio/AudioPipeline.cpp:20-70 | blocks of at most 512 at a quarter of the output rate or more never fill the 2048-sample buffer short |
| AudioRuns.SlottedKeeps | core/audio/AudioPipeline.cpp:74-87 | slots hold 1 to 512 samples and, without a drop, together exactly the block |
| AudioRuns.CaptureToSink | core/audio/AudioPipeline.cpp:35-146 | without drops, delivered and pending samples together are all outputs of the batch-resampled capture available so far, in slots of at most 512 (of a block longer than 512 frames only the first 512 enter) |
| AudioRuns.CaptureToSinkAnyRate | core/audio/AudioPipeline.cpp:35-146 | at any rate they are a prefix of it |
| AudioRuns.CaptureToSinkUnconverted | core/audio/AudioPipeline.cpp:58-61 | at the engine's rate or an unknown one they are the captured samples |
| AudioRuns.BlockingIsInvisible | core/audio/AudioPipeline.cpp:35-146 | block sizes, drain times, ring size and policy do not show in the stream |
| AudioLaws.MonoIsFirstChannel | core/audio/AudioPipeline.cpp:38-56 | of interleaved frames the downmix keeps the first channel's samples in order, shorts divided by 32768, whatever the other channels hold |
| AudioLaws.StreamIsFirstChannel | core/audio/AudioPipeline.cpp:35-146 | at the engine's rate or an unknown one, without drops, the stream is the first channel of everything recorded |
| AudioLaws.StreamIsSuperposition | core/audio/AudioPipeline.cpp:35-146 | at any other rate each of its samples is the converter's sum over that first channel |
| AudioLaws.DropOldestKeepsNewest | core/audio/AudioPipeline.cpp:74-87 | under drop-oldest a block leaves in the ring the newest slots of those queued and its own consecutive pieces of 512, and counts the others as dropped |
| AudioLaws.DropNewestKeepsOldest | core/audio/AudioPipeline.cpp:74-87 | under drop-newest it leaves the first ones that fit, and counts one drop if the block did not |
| AudioLaws.RateChangeRestarts | core/audio/AudioPipeline.cpp:58-72 | after a change of rate the stream goes on with the conversion of the new blocks from a fresh start |
| LockOrder.HeldLevels.CheckAndRecord | core/common/lockorder.cpp:36-43 | reports exactly when some held level is not below the new one, naming the first; records unless 16 are held |
| LockOrder.HeldLevels.Forget | core/common/lockorder.cpp:51-59 | removes exactly the most recent matching entry, keeping the order |
| LockOrder.RemovedAt | core/common/lockorder.cpp:52-58 | the entry removed is the last one of that level |
| LockProtocol.StepKeepsInv | core/common/lockorder.cpp:33-61 | without a report every step keeps the lists strictly increasing and equal to the owned levels plus the pending one |
| LockProtocol.RunKeepsInv | core/common/lockorder.cpp:33-61 | hence every run that ends unreported does |
| LockProtocol.ListsStayShort | core/common/lockorder.cpp:23-43 | at most six entries, so the 16-entry cap never drops one |
| LockProtocol.ReportIsExact | core/common/lockorder.cpp:36-42 | the first report is made exactly when the thread owns a mutex of that level or higher |
| LockProtocol.SomeOwnerIsFree | core/common/lockorder.h:10-12 | from any blocked thread the chain of owners climbs the levels to one that is not blocked |
| LockProtocol.NoDeadlock | core/common/lockorder.h:3-9 | while a thread is blocked some lock owner has a step towards release |
| LockProtocol.ReportedRunCanDeadlock | core/common/lockorder.cpp:39-45 | a witness: after a report whose handler returns, two threads can block each other for good |
| LockReports.StepTracks | core/common/lockorder.cpp:33-61 | reported or not, every step keeps each list equal, with multiplicity, to the levels owned and pending, and an unreported waiting thread waits above all it owns |
| LockReports.DeadlockWasReported | core/common/lockorder.cpp:33-61 | in every reachable state in which no list has overflowed its 16 entries, a set of mutually blocked threads contains one whose pending acquisition was itself reported |
| RingBuffers.RingBuffer.AcquireWrite | core/common/ring_buffer.h:68-81 | what happens to the queue and the drop count when full and when not, under both policies |
| RingBuffers.RingBuffer.Fill | core/common/ring_buffer.h:63-67 | filling the acquired slot touches no unread frame |
| RingBuffers.RingBuffer.CommitWrite | core/common/ring_buffer.h:83 | the filled slot joins the queue's end |
| RingBuffers.RingBuffer.AcquireRead | core/common/ring_buffer.h:89-94 | the oldest unread frame, or nothing exactly when there is none |
| RingBuffers.RingBuffer.CommitRead | core/common/ring_buffer.h:96 | it leaves the queue |
| RingBuffers.WrapReadsFull | core/common/ring_buffer.h:71 | the 64-bit subtraction reads as full exactly when the ring is full or tail has passed head |
| RingBuffers.SlotsDiffer | core/common/ring_buffer.h:80 | frames less than a capacity apart use different slots |
| RingProtocol.RunKeepsCounted | core/common/ring_buffer.h:68-96 | in every interleaving head - tail <= capacity, and tail = reads + drops up to the counter update in flight |
| RingProtocol.RunKeepsFifo | core/common/ring_buffer.h:68-96 | under drop-newest, or with undisturbed consumer turns, every frame below tail was read in order with its committed value or dropped, never both |
| RingProtocol.NewestDeliversPrefix | core/common/ring_buffer.h:68-96 | under drop-newest every interleaving delivers a prefix of the committed frames in order |
| RingProtocol.OldestDeliversUndropped | core/common/ring_buffer.h:76-96 | under drop-oldest with undisturbed consumer turns exactly the frames no drop skipped, in order |
| RingProtocol.WriterAvoidsReader | core/common/ring_buffer.h:80-93 | the slot being written is not the slot being read |
| RingProtocol.RunWriterAvoidsReader | core/common/ring_buffer.h:68-96 | so along every drop-newest run from the empty ring, and every drop-oldest one with undisturbed consumer turns |
| RingProtocol.StepKeepsClaimIff | core/common/ring_buffer.h:76-96 | a step breaks tail + holding <= head + pendingDrop exactly when it is a stale acquire |
| RingProtocol.ClaimHoldsIff | core/common/ring_buffer.h:76-96 | along a run the bound holds exactly when no acquire in it is stale |
| RingAcquires.AcquireBreaksIff | core/common/ring_buffer.h:76-92 | an acquireRead breaks the bound exactly when the ring held no frame as it was called, it acquired one nevertheless, and every write committed between its loads dropped |
| RingAcquires.NonEmptyAcquireIsSafe | core/common/ring_buffer.h:89-92 | an acquireRead called on a ring with an unread frame never breaks it |
| RingAcquires.ClaimHoldsIffNoRace | core/common/ring_buffer.h:76-96 | along a run the bound holds exactly when no acquireRead in it raced on an empty ring in that way |
| RingProtocol.NewestNeverStale | core/common/ring_buffer.h:72-75 | drop-newest has no stale acquires |
| RingProtocol.AtomicAcquireNeverStale | core/common/ring_buffer.h:89-92 | nor has drop-oldest if the two loads of acquireRead happen together |
| RingProtocol.OverrunIsReachable | core/common/ring_buffer.h:68-96 | for every capacity some run drives tail past head |
| RingProtocol.StepKeepsOverrun | core/common/ring_buffer.h:71-78 | from then on it stays past head, and every write drops |
| RingProtocol.OverrunStarves | core/common/ring_buffer.h:89-92 | and a consumer whose acquires are not split never gets a frame again |
| DepLinter.Linter.AddInclude | tools/lint_deps.py:79-88 | which include makes an edge and which a row violation |
| DepLinter.Linter.Scan | tools/lint_deps.py:51-88 | the edges are exactly the includes between different known modules; violations are empty exactly when no edge goes to a higher row |
| DepLinter.Linter.Dfs | tools/lint_deps.py:93-101 | on return the node is finished, the grey nodes are the caller's stack, reports are genuine, and unless a cycle was reported every finished node's successors finished before it; it terminates |
| DepLinter.Linter.Visit | tools/lint_deps.py:95-100 | the path reported is a closed walk along the stack; the fallback for a grey node off the stack is dead |
| DepLinter.Linter.Lint | tools/lint_deps.py:49-113 | a cycle is reported exactly when the graph has one, and the linter passes exactly when rows are respected and there is none |
| DepLinter.BackEdgeClosesWalk | tools/lint_deps.py:96-98 | from the grey node along the stack and back is a closed walk |
| DepLinter.OrderedIsAcyclic | tools/lint_deps.py:101-105 | a finishing order in which all edges point back excludes cycles |
| DepLinter.CycleStaysInRow | tools/lint_deps.py:83-88 | with Rule 1 respected all nodes of a cycle are in one row |
| StreamingModel.ForwardFrames | tools/streaming_model.py:62-66 | the block loop computes the whole-clip logits, which StreamingConvolution.LogitIs writes out |
| StreamingModel.InitStates | tools/streaming_model.py:73-74 | zero states are the states before any frame |
| StreamingModel.Step | tools/streaming_model.py:76-83 | one frame through all blocks, and the new states |
| StreamingModel.StreamClip | tools/streaming_model.py:86-103 | feeding a clip frame by frame from zero states gives exactly the whole-clip logits, for any depth, kernel, dilations and length |
| StreamingModel.StepExtendsForward | tools/streaming_model.py:32-44 | one block's step extends its whole-clip output by one frame and keeps its state in step |
| StreamingModel.StepExtendsLayers | tools/streaming_model.py:62-83 | so does a stack of blocks |
| StreamingModel.LogitDependsOnReceptiveField | tools/streaming_model.py:56 | a logit depends only on the last 1 + sum (k-1)d frames and on how many of them precede the clip |
| StreamingConvolution.ForwardIsConvolution | tools/streaming_model.py:32-35 | frame t of a block is its mix of the k inputs a dilation apart that end at t, padding before the clip, and of input t |
| StreamingConvolution.LogitIs | tools/streaming_model.py:62-66 | every logit of a network of any depth is the head applied to the nested convolutions |
| StreamingConvolution.OneBlockLogit | tools/streaming_model.py:28-35 | for one block, tap j of k is frame t - (k-1-j) * d |
| Stage1Detection.Stage1Detector.PushFeature | core/detect/Stage1Detector.cpp:236-275 | new state and event of one frame; when an event comes out is Stage1Events.EmitsExactly |
| Stage1Detection.Stage1Detector.TakeEdge | core/detect/Stage1Detector.cpp:250-265 | a new id exactly on an opening edge from rest |
| Stage1Detection.Stage1Detector.AppendRow | core/detect/Stage1Detector.cpp:239-248 | the window fills from the front, then shifts |
| Stage1Detection.Stage1Detector.RunStage1 | core/detect/Stage1Detector.cpp:118-173 | success, failure and the count of consecutive positives |
| Stage1Detection.Stage1Detector.RunStage2 | core/detect/Stage1Detector.cpp:179-217 | confirmation with the verifier's agreement, or at once if there is none; rejection otherwise |
| Stage1Detection.Stage1Detector.Reset | core/detect/Stage1Detector.cpp:277-287 | back to the initial state except for the id counter and last timestamp |
| Stage1Runs.IdleIffSilent | core/detect/Stage1Detector.cpp:26-51 | the machine is idle exactly when the last input was no speech frame |
| Stage1Runs.OneEventPerSpeechRun | core/detect/Stage1Detector.cpp:236-275 | between two events there is a frame without speech or a reset |
| Stage1Runs.EventsAreSpread | core/detect/Stage1Detector.cpp:219-237 | events are at least refractoryFrames apart between resets |
| Stage1Runs.IdsIncrease | core/detect/Stage1Detector.cpp:69-72 | event ids are valid and strictly increase, across resets too |
| Stage1Evidence.WindowHoldsLatest | core/detect/Stage1Detector.cpp:239-248 | the window holds the latest rows since the last reset, in order |
| Stage1Evidence.InferenceSeesLatest | core/detect/Stage1Detector.cpp:122-140 | an inference sees exactly the latest windowFrames rows |
| Stage1Evidence.CountIsEvidence | core/detect/Stage1Detector.cpp:155-172 | the counter is the number of positive inferences since the last low score, fire or reset |
| Stage1Evidence.EventMeansFired | core/detect/Stage1Detector.cpp:179-231 | an event's confidence is the verifier's score when there is one, else Stage-1's |
| Stage1Evidence.EventIsBacked | core/detect/Stage1Detector.cpp:118-231 | every event is backed by M successful inferences at or above the threshold since the last fire or reset, none below it in between, the last on its own frame and window, and by the verifier |
| Stage1Events.InfersWhenDue | core/detect/Stage1Detector.cpp:236-275 | over any frames and resets an inference runs exactly at a speech frame with windowFrames rows since the last reset, no event in its speech run or less than refractoryFrames ago, and the run's last inference at least hopFrames ago; it sees the latest rows |
| Stage1Events.RunsIff | core/detect/Stage1Detector.cpp:250-275 | the same in terms of the machine's own earlier events and inferences |
| Stage1Events.EmitsExactly | core/detect/Stage1Detector.cpp:118-231 | over any frames and resets an event is emitted exactly when the inference at that frame is the M-th, 2M-th, ... in a row to reach the threshold since the last low score or reset, and the verifier is absent or reaches its own threshold on the same rows; it carries the frame's timestamp and the deciding score |
| Stage1Events.IdIs | core/detect/Stage1Detector.cpp:69-72 | an event's id is the number of its speech run, counted across resets |
| Dsp.AgcStage.Process | core/dsp/DspChain.cpp:10-32 | the gain update and the clipped scaling, in place; the empty block changes nothing |
| Dsp.NsStage.Process | core/dsp/DspChain.cpp:34-54 | high-pass with carried state, floor update and gate, in place |
| Dsp.NsStage.RunHighPass | core/dsp/DspChain.cpp:36-44 | the filter loop is the recurrence over the block |
| Dsp.DspChain.Process | core/dsp/DspChain.cpp:63-69 | the stages in their order, on output and state |
| DspParity.HighPassSplits | core/dsp/DspChain.cpp:36-44 | the filter does not notice where its input is cut |
| DspParity.StreamedIsStageByStage | tools/aura_frontend.py:71-102 | AGC, high-pass and gate block by block with carried state output what each stage over the whole signal outputs, for any blocks |
| DspParity.ApplyDsp | tools/aura_frontend.py:71-102 | the in-place training-time form on 160-sample blocks, and its equality with the engine's chain on the same blocks |
| DspParity.HighPassBounded | core/dsp/DspChain.cpp:36-44 | the filter keeps its output within 0.97 of 0.97 times its input |
| DspParity.OutputBounded | core/dsp/DspChain.cpp:10-69 | no input and no blocking makes the output exceed 1.94 or the gain leave [0.1, 20] |
| DspLaws.GainApproaches | core/dsp/DspChain.cpp:16-23 | the gain closes a twentieth of its distance to target / level, or stops at the bound of [0.1, 20] beyond which the target lies; a silent block leaves it |
| DspLaws.SquaresAdd | core/dsp/DspChain.cpp:12-14 | the sum a level is taken from adds up over any split and is the square for one sample |
| DspLaws.LevelIsRms | core/dsp/DspChain.cpp:12-14 | the level squared times the length is the sum of squares, where sqrt is a square root |
| DspLaws.ScaledIs | core/dsp/DspChain.cpp:24-29 | sample times gain, or the nearer end of [-1, 1] |
| DspLaws.FilterEquation | tools/aura_frontend.py:89-91 | the filter satisfies y[n] - 0.97 y[n-1] = 0.97 x[n] - 0.97 x[n-1] from its carried state |
| DspLaws.ConstantDecays | core/dsp/DspChain.cpp:36-44 | from rest a constant decays by 0.97 a sample |
| DspLaws.GateIff | core/dsp/DspChain.cpp:46-53 | a block is halved exactly when its level is below one and a half times the updated floor, and is unchanged otherwise |
| DspLaws.ChainIs | core/dsp/DspChain.cpp:63-69 | one block through the chain: which samples come out, and what is carried over |
| CalibrationSidecar.FindKeyColon | core/config/calibration_sidecar.cpp:21-31 | the position just past the first colon after the first quoted occurrence of the key |
| CalibrationSidecar.ParseNumberAt | core/config/calibration_sidecar.cpp:35-54 | whether a number is there and what it converts to; otherwise the output is untouched |
| CalibrationSidecar.FindObject | core/config/calibration_sidecar.cpp:58-78 | the brace-balanced value of the key, or failure |
| CalibrationSidecar.FillStage | core/config/calibration_sidecar.cpp:107-118 | one stage's method and numbers, identity where anything is missing |
| CalibrationSidecar.Parse | core/config/calibration_sidecar.cpp:82-122 | the scan as a function of the text |
| CalibrationSidecar.FindIsFirst | core/config/calibration_sidecar.cpp:27 | the search returns an occurrence with none before it, or there is none |
| SidecarLaws.TruncationIsAllOrNothing | core/config/calibration_sidecar.cpp:82-122 | cutting any text off anywhere gives the full result exactly when the calibration object is still complete, else identity |
| SidecarLaws.AfterKeySkipsEntry | core/config/calibration_sidecar.cpp:21-31 | a key is never found across or inside another quoted string |
| SidecarRoundTrip.ReadStage | core/config/calibration_sidecar.cpp:109-118 | a printed stage object's three numbers are read back |
| SidecarRoundTrip.BlockFound | core/config/calibration_sidecar.cpp:85-87 | the printed block is cut out exactly, and ends where the suffix begins |
| SidecarRoundTrip.ParseUndoesPrint | train.py:127-131 | scanning the printed document gives back method and numbers of both stages, for any whitespace layout, any preceding text without an earlier quoted "calibration", and any following text |
| SidecarRoundTrip.TruncatedPrintIsAllOrNothing | train.py:127-131 | and cut off anywhere it gives back both stages or identity, by whether the block is complete |
| SidecarLaws.DecimalIsToken | core/config/calibration_sidecar.cpp:38-46 | every decimal with sign, digits, point and exponent is one number token |
| SidecarLaws.WhitespaceIs | core/config/calibration_sidecar.cpp:37-38 | whitespace is exactly blanks, tabs and line ends |
| LogMel.LogMelExtractor.Process | core/features/LogMelExtractor.cpp:69-86 | for any chunking the callback's frames are those the longer input adds to the batch form; the append loop terminates |
| LogMel.LogMelExtractor.Append | core/features/LogMelExtractor.cpp:74-84 | at most one window fills per round, and it is the next one |
| LogMel.FramesAreBatch | tools/aura_frontend.py:105-118 | frame k is computed from x[k*hop .. k*hop+win), which is the numpy strided view |
| LogMel.CountMeans | core/features/LogMelExtractor.cpp:69-86 | (N-win)/hop+1 windows fit and no more |
| StreamingWindows.StreamingWindow.Push | core/runtime/StreamingWindow.h:52-60 | both halves stay equal and the view slides by one row |
| StreamingWindows.StreamingWindow.View | core/runtime/StreamingWindow.h:62 | the last windowFrames rows oldest to newest, silent rows before |
| StreamingWindows.StreamingWindow.FrameAt | core/runtime/StreamingWindow.h:64-66 | the i-th of them, the last being the row just pushed |
| StreamingWindows.StreamingWindow.Reset | core/runtime/StreamingWindow.h:77-82 | back to all silence |
| StreamingWindows.AgreesWithDetectorIff | core/runtime/StreamingWindow.h:8-10 | for every input sequence the view is the detector's window exactly when windowFrames rows are in or every row so far is silent |
| StreamingWindows.AgreesWithDetectorWhenFull | core/runtime/StreamingWindow.h:8-10 | once windowFrames rows are in, the view is the detector's window |
| StreamingWindows.DiffersBeforeFull | core/detect/Stage1Detector.cpp:239-248 | a witness: after one row that is not silent the two layouts differ |
| Auroc.FormulaIs | tools/calibrate.py:141-151 | the rank formula counts the pairs a positive wins against negatives and against scores labelled neither |
| Auroc.FormulaIsFractionIff | tools/calibrate.py:141-151 | it is the fraction of correctly ordered pairs, ties one half, exactly when no positive reaches a score labelled neither 0 nor 1; the repository's callers (tools/aura_data.py:79 and 102, benchmarks/harness/bench_kws.py) pass only 0 and 1 |
| Auroc.OtherLabelsBreakIt | tools/calibrate.py:141-151 | a witness with a label 2: the formula gives 2 where the fraction is 1 |
| Auroc.BinaryLabels | tools/calibrate.py:141-151 | with labels 0 and 1 it is that fraction and lies in [0, 1] |
| Auroc.RescoringIsInvisible | tools/calibrate.py:141-151 | any strictly increasing rescoring leaves it unchanged |
| Auroc.PlattIsInvisible | tools/calibrate.py:68-69 | Platt scaling with positive slope is one |

## Left out

- Floating point: samples, scores, gains and phases are exact reals, so rounding and the drift of the running twiddle and phase are not modelled.
- Transcendental values: `sqrt`, the sinc and Lanczos weights, the sigmoid, `strtof` and the twiddles are parameters; the twiddles satisfy tw(2) = (-1, 0), tw(2L)^2 = tw(L).
- Fft.RealFft.constructor: sizes that are not a power of two, for which the original does not compute the transform, are excluded.
- Weak memory: every atomic access is one sequentially consistent step.
- Counter wrap: head, tail, ids and generation are taken as far from 2^64 or 2^32; the subtraction in acquireWrite is modelled with wrap-around.
- ModelManager: regions are identified by address, and mapping returns an address not currently mapped; equality of the active handle's generation with the counter is not claimed, because a rollback between stage and activate breaks it.
- RingProtocol.RunKeepsFifo: does not cover drop-oldest with a producer running during a consumer's turn, where the producer may overwrite the slot being read and a read may skip a frame; there only the counter laws and the exact condition for the bound are proved.
- DepLinter.Linter.Lint: does not model Rule 2 or the scanning of files; it starts from the list of includes of known files.
- Stage1Detection: scores are what the backend answers, after calibration; the Stage-2 arena running out counts as a failed inference, and the Stage-1 arena, sized for the window, does not run out.
- Agreement of the Python and C++ cascades: not claimed. The Python policy needs both scores on every window; the engine asks Stage-2 only on the M-th positive, and Platt scaling applies to different quantities.
- StreamingModel.Step: does not model batches; each batch element is a clip of its own.
- AudioPipelines.AudioPipeline.Drain: does not model the sink running concurrently with capture, nor starting and stopping its thread; for the concurrency see the ring protocol.
- LogMel.LogMelExtractor.constructor: a hop of zero or longer than the window, for which the original loops or underflows, is excluded; filterbank values are left to the feature function.
- GreedyDecision.Decide: a clip that could not be prepared counts no detection and is not modelled; the hop constant is at least one.
- VadGate: its documented debounce does not hold of the code, and its counter is otherwise simple.
- Inference runtimes, platform audio, files and memory mapping, logging, training, dashboards and packaging: foreign calls, I/O or plumbing.
- Arena, Result, Scheduler and ConfigProvider would add only easy members; the state machine template appears as the transition function.
