# VoxMic verification model

VoxMic feeds a phone's microphone into a Windows PC. This project models the parts of its PC side where
correctness is hardest to see, and proves properties of them:

* **the RNNoise kernels** (`src/dsp/rnnoise`): the mixed-radix FFT with its planner, overlap-add framing,
  Levinson-Durbin, the correlation and pitch kernels, the dense and block-sparse matrix kernels behind a checked
  index table, the weight file, and the recurrent network;
* **the DPDFNet streaming protocol** (`src/dsp/dpdfnet_processor.cpp`, `tagged_block_queue.h`, `pipeline.h`): two
  rings, a worker thread, stream epochs, the worker's life cycle and the watchdog;
* **the demand gate and the bridge's ring** (`src/mic_session_state.h`, `mic_usage_monitor.cpp`, `ring_buffer.h`,
  `main.cpp`).

`dafny verify dfyconfig.toml` checks everything.

## How the model is built

Floats are `real`, complex numbers are pairs of reals, and products that the solver should not multiply out are kept
behind a name (`RealSums.Prod`, `ComplexNumbers.Times`). Tables the program generates are parameters with the algebra
they must satisfy: a twiddle table holds the powers of a root w of unit modulus with w^n = 1, primitive, with
w^(n/4) = -i where 4 divides n and a constant c with 2c^2 = 1 (`Butterfly.ExactRoot`, `ExactTable`); the window is
power-complementary (`OverlapAdd.PowerComplementary`). Square roots and other transcendental functions are parameters.

Code that works by changing things in place is modelled that way: butterflies rewrite an array, Levinson-Durbin updates
its coefficients pairwise, queues and rings are objects over buffers with two positions, the pipeline and the monitor
are objects with the source's fields. Each such method is proved against a specification of values, and the laws are
then proved about that specification. The render/worker protocol and the two-thread ring are state machines over atomic
steps under sequential consistency; what the model library returns, when a thread hangs, which settings another thread
changes and what the operating system reports are arbitrary inputs.

Main results:

* `FftAlloc.Transform`: for every length, preparing and transforming works exactly when the length is 5-smooth with
  fewer than eight factors, and then gives the scaled discrete Fourier transform. It rests on `Planner.KfFactor` (what the
  planner records, from the length alone), `Fft.RnnFft` (digit-reversed copy plus staged in-place butterflies) and
  `Fft.WalkFitsIff`. `Inversion.RoundTrip` composes forward and inverse; `OverlapAdd.RunDelaysByTwo` says every run of
  untouched frames comes out unchanged, two frames late.
* `Levinson.RnnLpc`: at whatever order it stops, the coefficients solve that order's normal equations and `error` is
  their prediction error; it divides by zero exactly when the error recursion over its input says so.
  `Downsample.RnnPitchDownsample`, its only caller, never makes it do that.
* `Correlation.RnnAutocorr`, `Pitch.FindBestPitch`, `PitchSearch.RnnRemoveDoubling`: unrolled, sliding and division-free
  forms equal the plain definitions.
* `Matrix.FindIdxCheck` and `SparseKernel.SparseSgemv8x4`: on every index table, when the check accepts, refuses and
  reads past the end; an accepted table without negative positions makes the sparse kernel compute the dense product,
  consuming exactly the table and exactly the weights.
* `Network.RunBounded`, `Network.Chain`, `FrameRun.RunSteps`: network state and outputs are bounded for ever, each unit
  hears only the one before it, and the bin gains of every frame interpolate the decayed peaks of the network's gains.
* `QueueThreads.RunIsFifo`, `Protocol.EpochSafety`, `Protocol.SessionsArePure`, `Protocol.DiscardsOnlyStale`,
  `Protocol.NewestSurvives`, `Protocol.NoGaps`: the ring refines an atomic queue, and over every interleaving only
  genuine, ordered blocks of the right epoch are delivered, with no gap a full queue or a new epoch does not explain, and
  no current block is thrown away. `RenderCalls.PipelineIsEpochSafe`: with the calls the pipeline makes, that epochs
  never go back is proved and not assumed.
* `Lifecycle.LifeOf`, `Pipeline.DspPipeline.Process`: nothing a hung worker may use is released, and the history says
  exactly when the processor is ready; each block's fate is told from the history, and silence is bounded.
* `DemandGate.RunOf`: over every timed run of the monitor the gate never closes within 400 ms of activity, pulses included;
  and it does close after quiet passes. `Bridge.Receiver.OnBlock`: no active block is lost.

Points where the code settles a question:

* `interp_band_gain` clears its output by bytes, not entries; only bins that are overwritten anyway are reached, and
  bins from 400 up keep what the caller put there.
* The branch for lags below twice the shortest one in doubling removal is never taken, because the branch before it
  covers those lags; the model keeps both in the source's order.
* `ARCHITECTURE.md` says the worker is never detached; the code detaches and abandons a worker that does not stop, and
  the model follows the code.

## Findings

Properties that fail on some input, with the input and the exact condition under which they hold.

* **The stage walk needs one entry more than the factor buffer allows stages** (`src/dsp/rnnoise/kiss_fft.c:523-534`).
  `rnn_fft_impl` writes `fstride[L+1]` for every stage, into eight entries, while `kf_factor` records up to eight stages.
  Length 6561 = 3^8 is accepted with eight stages (`Planner.EightThrees`) and its walk writes entry eight
  (`FftAlloc.PlannedButTooLong`). For every plan the walk stays inside exactly when there are fewer than eight stages
  (`Fft.WalkFitsIff`, and as an outcome `Fft.WalkStrides`, `Fft.RnnFft`); for every length, exactly when the length has
  fewer than eight factors (`FftAlloc.WalkOfLength`, `FftAlloc.Transform`).
* **The factor buffer holds 16-bit integers** (`src/dsp/rnnoise/kiss_fft.c:398-402`, `kiss_fft.h:96`). The recorded stages
  are a plan exactly when the length divided by its first radix, which the length alone tells (`Planner.FirstRadix`), is
  at most 32767 (`Planner.KfFactor`). Length 390625 = 5^8 fails (`Planner.EightFives`); lengths of fewer than eight factors
  never do (last clause of `Planner.KfFactor`).
* **A ninth factor is recorded past the factor buffer** (`src/dsp/rnnoise/kiss_fft.c:379`). This happens exactly for
  lengths of more than eight factors (`Planner.KfFactor`), 19683 = 3^9 for example (`Planner.NineThrees`).
* **The index table check trusts block counts** (`src/dsp/rnnoise/parse_lpcnet_weights.c:106-118`). A negative count makes
  `remain` larger than what is left. The check reads past the end of the table exactly when a walk that believes something
  is left is not refused before the end (`Matrix.FindIdxCheck`, `Matrix.ReadsPastTheEnd`), which takes a negative count met
  before (`Matrix.PastNeedsNegative`); the table [-1] does it (`Matrix.NegativeCountReadsPast`). It never accepts a table in
  which it meets one.
* **The index table check does not look at the sign of positions** (`src/dsp/rnnoise/parse_lpcnet_weights.c:112-114`). The
  table [1, -4] is accepted (`Matrix.NegativePositionAccepted`); on accepted tables the kernel reads valid inputs exactly
  when no position is negative (`Matrix.ReadsInsideIff`).
* **Levinson-Durbin can divide by zero for a negative ac[0]** (`src/dsp/rnnoise/celt_lpc.c:53-84`). It does exactly when
  some order below p leaves an error of zero that does not end the loop and no earlier order ends it
  (`Levinson.RnnLpc`, `Levinson.DividesByZero`); an error of zero comes exactly from a reflection of size one
  (`Levinson.ErrorRecursion`). For given p and ac[0], no continuation divides by zero if and only if p <= 1 or ac[0] >= 0
  (`Levinson.SafeIff`); for p >= 2 every negative ac[0] with ac[1] of the same size does
  (`Levinson.EqualEnergiesDivideByZero`), and for p = 2 only those (`Levinson.TwoOrdersIff`). The repository's own caller
  passes an autocorrelation, whose ac[0] is an energy, and is safe (`Downsample.NeverDividesByZero`).
* **A gate that failed open can close again** (`src/main.cpp:159-167`). The comment there promises an always-stream gate
  until restart, but changes of mode are still evaluated (`src/main.cpp:38-41`, `src/mic_usage_monitor.cpp:605-611`), and
  rolling back a setting that cannot be saved evaluates demand mode again without leaving it
  (`src/settings_dialog.cpp:789-791`). Two such evaluations 400 ms apart close it (`DemandGate.FailedOpenCloses`); it stays
  open exactly as long as no two in demand mode, with none out of demand mode between, are 400 ms apart
  (`DemandGate.FailedOpenStaysOpenIff`).

## Model

| member | source | states |
|---|---|---|
| Planner.KfFactor | src/dsp/rnnoise/kiss_fft.c:352-404 | on every length: factored exactly when 5-smooth with at most eight factors, a ninth factor overruns the buffer, anything else is refused; the first radix recorded is the one the length tells, and the buffer is a plan (radices times sub-lengths nest down to 1, a radix-2 stage only on sub-length 1 or 4) exactly when length / first radix fits 16 bits, always so below eight stages |
| Planner.LastIsFirstRadix | src/dsp/rnnoise/kiss_fft.c:360-397 | the last radix found, which the reversal puts first, is determined by the length alone |
| Planner.EightThrees | src/dsp/rnnoise/kiss_fft.c:352-404 | length 6561 is accepted with a plan of eight stages |
| Planner.EightFives | src/dsp/rnnoise/kiss_fft.c:398-402 | length 390625 is accepted but its first sub-length does not fit 16 bits |
| Planner.NineThrees | src/dsp/rnnoise/kiss_fft.c:379-385 | length 19683 has a ninth factor |
| Planner.SmoothIff | src/dsp/rnnoise/kiss_fft.c:352-380 | the lengths accepted are exactly the products of powers of 2, 3 and 5 |
| Planner.NextFactor | src/dsp/rnnoise/kiss_fft.c:361-369 | the candidate loop finds the next radix of the 4, 2, 3, 5, ... search or n itself past the square root, and terminates |
| Planner.Reverse | src/dsp/rnnoise/kiss_fft.c:391-397 | after the radix-2 swap the factor list is reversed in place |
| Fft.ComputeBitrevTable | src/dsp/rnnoise/kiss_fft.c:314-345 | the recursion writes, for every block, the digit-reversed position of each of its outputs and nothing outside the block |
| Fft.ReversalOnto | src/dsp/rnnoise/kiss_fft.c:314-345 | the table is a permutation of 0..n-1 |
| FftPlan.OffsetInjective | src/dsp/rnnoise/kiss_fft.c:314-345 | digit reversal never sends two outputs to one place |
| FftStages.Bfly2 | src/dsp/rnnoise/kiss_fft.c:45-99 | the radix-2 pass, including the hard-wired twiddles for m = 4, is the exact radix-2 combination of every block |
| FftStages.Bfly3 | src/dsp/rnnoise/kiss_fft.c:173-228 | the radix-3 pass is the exact radix-3 combination of every block |
| FftStages.Bfly4 | src/dsp/rnnoise/kiss_fft.c:101-168 | the radix-4 pass, including its twiddle-free form for m = 1, is the exact radix-4 combination of every block |
| FftStages.Bfly5 | src/dsp/rnnoise/kiss_fft.c:232-305 | the radix-5 pass is the exact radix-5 combination of every block |
| Roots.Combine3 | src/dsp/rnnoise/kiss_fft.c:205-222 | the real-arithmetic radix-3 formulas equal the three-point sum over a cube root of unity |
| Roots.Combine4 | src/dsp/rnnoise/kiss_fft.c:112-166 | the quarter-turn formulas equal the four-point sum over -i |
| Roots.Combine5 | src/dsp/rnnoise/kiss_fft.c:262-300 | the five-point sum splits by a fifth root and its square as the code uses them |
| KissFft.Radix5Values | src/dsp/rnnoise/kiss_fft.c:275-300 | the code's cosine and sine pairings of radix 5 give the five outputs of the combination |
| Dft.Decimate | src/dsp/rnnoise/kiss_fft.c:518-564 | decimation in time: a block's transform is the twiddled sum of its sub-blocks' transforms |
| Dft.StageAdvances | src/dsp/rnnoise/kiss_fft.c:538-563 | one stage turns finished sub-transforms into finished transforms of the next length |
| Fft.WalkTopIsStages | src/dsp/rnnoise/kiss_fft.c:529-535 | the highest entry of the stride buffer the walk writes is the number of stages |
| Fft.WalkFitsIff | src/dsp/rnnoise/kiss_fft.c:523-535 | for every plan the walk stays inside its eight entries exactly when there are fewer than eight stages |
| Fft.WalkStrides | src/dsp/rnnoise/kiss_fft.c:523-535 | the strides of all stages, or the overrun, exactly when the plan has eight stages or more |
| Fft.FftImpl | src/dsp/rnnoise/kiss_fft.c:518-564 | for every plan: overruns or leaves the full transform, depending only on the number of stages |
| Fft.RnnFft | src/dsp/rnnoise/kiss_fft.c:566-586 | for every plan of fewer than eight stages output k is the scaled discrete Fourier sum at k; longer plans overrun |
| FftAlloc.RnnFftAlloc | src/dsp/rnnoise/kiss_fft.c:434-493 | on every length, how preparing ends, from the length alone; a ready state has a plan, its digit reversal and as many stages as the length has factors |
| FftAlloc.Transform | src/dsp/rnnoise/kiss_fft.c:434-586 | preparing and transforming works exactly for 5-smooth lengths of fewer than eight factors, and is then the scaled discrete Fourier transform |
| FftAlloc.WalkOfLength | src/dsp/rnnoise/kiss_fft.c:523-535 | for every plannable length the walk's highest write is the number of factors, inside the buffer exactly below eight |
| FftAlloc.PlannedButTooLong | src/dsp/rnnoise/kiss_fft.c:523-535 | length 6561 is prepared, and the walk over its plan writes entry eight of eight |
| Inversion.Orthogonal | src/dsp/rnnoise/kiss_fft.c:566-601 | powers of the primitive root sum to n or to zero |
| Inversion.RnnIfft | src/dsp/rnnoise/kiss_fft.c:589-601 | conjugating before and after gives the inverse sum, on the same plans as the forward transform |
| Inversion.TransformTwice | src/dsp/rnnoise/denoise.c:201-218 | transforming a scaled spectrum again gives the input backwards |
| Inversion.InverseOfForward | src/dsp/rnnoise/kiss_fft.c:566-601 | the inverse of the scaled forward transform is the input |
| Inversion.RoundTrip | src/dsp/rnnoise/kiss_fft.c:566-601 | running both transforms returns every input sample, on the same plans |
| Transform.ForwardTransform | src/dsp/rnnoise/denoise.c:187-199 | the stored bins are the spectrum of the real frame |
| Transform.CompleteBins | src/dsp/rnnoise/denoise.c:205-211 | the upper bins are filled with conjugates of the lower ones |
| Transform.InverseTransform | src/dsp/rnnoise/denoise.c:201-218 | the frame is read off backwards from a forward transform of the completed bins |
| Transform.Mirror | src/dsp/rnnoise/denoise.c:208-211 | a real frame's upper bins are the conjugates of its lower ones, so completing loses nothing |
| Transform.FrameOfSpectrum | src/dsp/rnnoise/denoise.c:187-218 | inverse_transform undoes forward_transform on every real frame |
| OverlapAdd.ApplyWindow | src/dsp/rnnoise/denoise.c:220-226 | the two-ended in-place loop multiplies by the symmetric window |
| OverlapAdd.HalvesAdd | src/dsp/rnnoise/denoise.c:415-422 | overlapped halves of two doubly windowed frames add up to the shared input |
| OverlapAdd.UntouchedDelays | src/dsp/rnnoise/denoise.c:347-422 | one untouched frame returns the input of two frames before and keeps the memories in step |
| OverlapAdd.RunDelaysByTwo | src/dsp/rnnoise/denoise.c:472-515 | over every run of untouched frames output t is input t - 2 |
| OverlapAdd.FrameState.FrameAnalysis | src/dsp/rnnoise/denoise.c:347-360 | the spectrum is that of the windowed last and current frame; the memory becomes the current frame |
| OverlapAdd.FrameState.FrameSynthesis | src/dsp/rnnoise/denoise.c:415-422 | the output is the first half plus the memory; the memory becomes the second half |
| OverlapAdd.FrameState.ProcessSilentFrame | src/dsp/rnnoise/denoise.c:472-515 | the silent path synthesises the delayed spectrum untouched and stores the new one |
| Levinson.LevinsonStep | src/dsp/rnnoise/celt_lpc.c:54-82 | the reflection step turns a solution of order n into one of order n + 1 and scales the error by 1 - r^2 |
| Levinson.UpdateInPlace | src/dsp/rnnoise/celt_lpc.c:65-75 | the pairwise update equals the simultaneous one, also where the pair meets |
| Levinson.RnnLpc | src/dsp/rnnoise/celt_lpc.c:38-89 | for every ac: at the order where it stops the coefficients solve the normal equations, the rest are zero, error is the prediction error, and an early stop means a 30 dB drop; it divides by zero if and only if some order below p, reached without bail-out, leaves an error of exactly zero that is not below the bail-out |
| Levinson.ErrorRecursion | src/dsp/rnnoise/celt_lpc.c:54-84 | while no error is zero each order scales it by 1 - r^2, so it becomes zero exactly for a reflection of size one |
| Levinson.SafeIff | src/dsp/rnnoise/celt_lpc.c:53-84 | for given p and ac[0], no rest of the input divides by zero if and only if p <= 1 or ac[0] >= 0 |
| Levinson.EqualEnergiesDivideByZero | src/dsp/rnnoise/celt_lpc.c:53-84 | with ac[0] negative and ac[1] of the same size there is a division by zero if and only if p >= 2 |
| Levinson.TwoOrdersIff | src/dsp/rnnoise/celt_lpc.c:53-84 | at p = 2 exactly those inputs divide by zero |
| Downsample.Halve | src/dsp/rnnoise/pitch.c:170-172 | half the rate, each sample smoothed over its neighbours |
| Downsample.HalvingFilter | src/dsp/rnnoise/pitch.c:170-172 | that smoothing passes a constant and stops the fastest alternation |
| Downsample.ConditioningShrinks | src/dsp/rnnoise/pitch.c:184-199 | the noise floor adds 40 dB below the energy, the lag window shrinks the other lags, later ones more |
| Downsample.ExpansionDamps | src/dsp/rnnoise/pitch.c:202-206 | the expanded predictor does on a signal damped by 0.9 per sample what the predictor does on the signal, damped |
| Downsample.NeverDividesByZero | src/dsp/rnnoise/pitch.c:181-201 | the autocorrelation the repository passes, noise floor and lag window applied, never divides by zero at any order |
| Downsample.FindPredictor | src/dsp/rnnoise/pitch.c:181-201 | finds the predictor of the recursion on the conditioned autocorrelation, at the order where it ends |
| Downsample.ZeroIsCascade | src/dsp/rnnoise/pitch.c:207-212 | the five taps are the predictor's filter followed by the filter of the added zero |
| Downsample.CeltFir5 | src/dsp/rnnoise/pitch.c:104-143 | the in-place filter with five memories filters the samples it overwrites |
| Downsample.RnnPitchDownsample | src/dsp/rnnoise/pitch.c:146-214 | the half-rate signal, filtered by its own expanded predictor and then by the zero |
| Downsample.PitchState.Track | src/dsp/rnnoise/denoise.c:374-387 | the buffer drops its oldest frame for the newest; the period is the one search and doubling removal find on the whitened half-rate buffer with the last frame's period and gain, lies in [60, 767], and the window one period back lies inside the buffer |
| Correlation.XcorrKernel | src/dsp/rnnoise/pitch.h:51-115 | the register-rotating kernel with its tail adds four neighbouring correlations |
| Correlation.CeltInnerProd | src/dsp/rnnoise/pitch.h:134-142 | the correlation at one lag |
| Correlation.DualInnerProd | src/dsp/rnnoise/pitch.h:117-130 | two correlations in one pass |
| Correlation.RnnPitchXcorr | src/dsp/rnnoise/pitch.c:216-279 | four lags a pass plus the remainder equal the simple double loop at every lag |
| Correlation.Taper | src/dsp/rnnoise/celt_lpc.c:107-121 | both ends are tapered, the later write winning where they overlap |
| Correlation.TaperSymmetric | src/dsp/rnnoise/celt_lpc.c:118-126 | both ends are treated alike and the middle is left as it is |
| Correlation.AutocorrTail | src/dsp/rnnoise/celt_lpc.c:145-151 | the samples the fast part leaves out at a lag |
| Correlation.RnnAutocorr | src/dsp/rnnoise/celt_lpc.c:92-174 | fast part plus tail is the full autocorrelation at every lag |
| Pitch.EnergySlides | src/dsp/rnnoise/pitch.c:99-100 | the running energy is the next window's energy, so its clamp never acts |
| Pitch.CompareScores | src/dsp/rnnoise/pitch.c:79-97 | cross-multiplied comparison orders lags by squared correlation over energy |
| Pitch.FindBestPitch | src/dsp/rnnoise/pitch.c:44-102 | the two lags are the best and second best by squared correlation over energy among positive correlations, earliest first |
| PitchSearch.FineSearch | src/dsp/rnnoise/pitch.c:344-361 | full correlation within two lags of the coarse winners, zero elsewhere |
| PitchSearch.RnnPitchSearch | src/dsp/rnnoise/pitch.c:281-385 | coarse winners, fine ranking around them, one lag of lean; the result stays within the searched range; at a peak it moves towards the larger neighbour, exactly when the drop there is below 0.3 of the other |
| PitchSearch.LeanAtPeak | src/dsp/rnnoise/pitch.c:366-383 | at a peak the lean is towards the larger neighbour exactly when the drop on its side is below 0.3 of the drop on the other; mirrored neighbours mirror it |
| PitchSearch.WindowEnergies | src/dsp/rnnoise/pitch.c:449-456 | every table entry is the energy of the shifted window, so its clamp never acts |
| PitchSearch.RoundedBelow | src/dsp/rnnoise/pitch.c:468-480 | a rounded fraction of the lag never passes the lag |
| PitchSearch.RoundedNearest | src/dsp/rnnoise/pitch.c:468-480 | the rounding is to a nearest lag |
| PitchSearch.SecondCheckIsLeastPrime | src/dsp/rnnoise/pitch.c:423 | the second fraction checked for k is p / k for the least prime p not dividing k |
| PitchSearch.ThresholdMeaning | src/dsp/rnnoise/pitch.c:492-499 | a gain passes exactly when it is above 0.3 and 0.7 of the searched lag's less continuity, for lags below three times the shortest above 0.4 and 0.85; the source's middle case never decides |
| PitchSearch.ThresholdRises | src/dsp/rnnoise/pitch.c:492-499 | a shorter lag never needs less gain, and continuity never makes it need more |
| PitchSearch.ContinuityMeaning | src/dsp/rnnoise/pitch.c:486-491 | the last gain counts in full within one lag of the last period, half two away and only for small divisors, else not |
| PitchSearch.ReportedGainRange | src/dsp/rnnoise/pitch.c:506-524 | the reported gain lies between zero and one and never above the normalised correlation |
| PitchSearch.SecondLagInRange | src/dsp/rnnoise/pitch.c:472-481 | the second lag checked stays within the buffers for every divisor |
| PitchSearch.TryDivisor | src/dsp/rnnoise/pitch.c:482-485 | correlation and energy averaged over the two lags of a divisor |
| PitchSearch.RnnRemoveDoubling | src/dsp/rnnoise/pitch.c:422-528 | the lag kept is that of the largest divisor passing its threshold, or the searched one; the period is it doubled, moved at a peak towards the larger neighbour exactly when the drop there is below 0.3 of the other, and within [minPeriod, maxPeriod) |
| PitchSearch.FramePitch | src/dsp/rnnoise/denoise.c:374-385 | doubling removal on the frame's buffer, started from the lag the search on it found; the period is the lag kept doubled, give or take one, in [60, 767] |
| PitchSearch.PitchWindow | src/dsp/rnnoise/denoise.c:386-387 | the window one period back lies inside the pitch buffer |
| Matrix.SgemvStrips | src/dsp/rnnoise/vec.h:49-107 | the 16-row and 8-row forms compute the dense product |
| Matrix.Sgemv | src/dsp/rnnoise/vec.h:109-121 | whichever form the height selects, each output is the row's product |
| Matrix.FindIdxCheck | src/dsp/rnnoise/parse_lpcnet_weights.c:98-121 | on every table: accepts exactly those with one well-formed group per eight outputs and counts their blocks; reads past the end exactly when a walk that still expects something reaches it unrefused |
| Matrix.PastNeedsNegative | src/dsp/rnnoise/parse_lpcnet_weights.c:106-118 | reading past the end takes a negative count met before |
| Matrix.NegativeNotAccepted | src/dsp/rnnoise/parse_lpcnet_weights.c:106-119 | a table whose walk meets a negative count is never accepted |
| Matrix.NegativeCountReadsPast | src/dsp/rnnoise/parse_lpcnet_weights.c:106-118 | the table [-1] makes the check read past its end |
| Matrix.ReadsInsideIff | src/dsp/rnnoise/parse_lpcnet_weights.c:112-114 | on an accepted table the kernel reads only valid inputs if and only if no position is negative |
| Matrix.NegativePositionAccepted | src/dsp/rnnoise/parse_lpcnet_weights.c:112-114 | a table with a negative position that is accepted |
| SparseKernel.SparseIsDense | src/dsp/rnnoise/vec.h:123-180 | block by block or column by column, a row of the sparse product is the dense one on the expanded matrix |
| SparseKernel.OneBlockIsDense | src/dsp/rnnoise/vec.h:123-180 | one block over a matrix of its own shape is that matrix, column by column |
| SparseKernel.SparseSgemv8x4 | src/dsp/rnnoise/vec.h:123-180 | the cursor-driven kernel computes that product and ends exactly at the end of table and weights |
| WeightBlob.ParseRecord | src/dsp/rnnoise/parse_lpcnet_weights.c:37-52 | takes a record exactly when its block holds its data, lies in the file and its name ends; the entry is the header's fields |
| WeightBlob.ParseWeights | src/dsp/rnnoise/parse_lpcnet_weights.c:54-78 | lists every record of a well-formed file, rejects any other, and always has room for the terminator |
| WeightBlob.ArraysInside | src/dsp/rnnoise/parse_lpcnet_weights.c:37-78 | every accepted array lies inside the file and no two overlap |
| WeightBlob.RoundTrip | src/dsp/rnnoise/parse_lpcnet_weights.c:37-78 | reading back a written file finds every array's name, type and bytes |
| Layers.FindArray | src/dsp/rnnoise/parse_lpcnet_weights.c:80-83 | an array of that name, or the certainty that none exists |
| Layers.FirstIsFound | src/dsp/rnnoise/parse_lpcnet_weights.c:80-96 | the first array of the name is found, and floats are taken exactly when its size is theirs |
| Layers.LinearInit | src/dsp/rnnoise/parse_lpcnet_weights.c:123-176 | loads exactly when every part asked for is there with its size and the table is well-formed, whatever the list's terminator holds; the layer's parts are the ones found, in the shape evaluation relies on |
| Layers.ComputeLinear | src/dsp/rnnoise/nnet_arch.h:130-162 | matrix (dense, sparse or none), bias and gate diagonals add up to the layer's output |
| Layers.LayerMeaning | src/dsp/rnnoise/nnet_arch.h:130-162 | silence gives the bias, and one input alone adds its column of weights and its diagonal entry in each gate |
| Activation.TanhShape | src/dsp/rnnoise/vec.h:337-351 | the clamped approximation is odd and lies between 0 and the argument |
| Activation.SigmoidComplement | src/dsp/rnnoise/vec.h:353-356 | the values at x and -x add up to one |
| Activation.TanhSaturates | src/dsp/rnnoise/vec.h:337-351 | from 20 on the approximation is exactly one in size |
| Activation.SigmoidKind | src/dsp/rnnoise/nnet_arch.h:79-91 | the sigmoid kind gives probabilities that complement each other |
| Activation.TanhKind | src/dsp/rnnoise/nnet_arch.h:92-101 | the tanh kind is odd and lies between zero and its argument |
| Activation.OtherKinds | src/dsp/rnnoise/nnet_arch.h:102-126 | relu splits its argument between the signs, swish weighs it by its sigmoid, the others pass it on |
| Activation.ComputeActivation | src/dsp/rnnoise/nnet_arch.h:79-127 | a stretch of the buffer is activated in place, nothing else changes |
| Network.ComputeGenericDense | src/dsp/rnnoise/nnet.c:57-61 | activated linear output |
| Network.GateEnds | src/dsp/rnnoise/nnet.c:82-91 | a closed update gate keeps a unit's state, an open one replaces it |
| Network.GateMeaning | src/dsp/rnnoise/nnet.c:82-91 | in between the state moves towards the candidate without passing it |
| Network.ResetGateMeaning | src/dsp/rnnoise/nnet.c:86-89 | a closed reset gate makes the candidate forget the state, an open one lets the recurrent part through whole |
| Network.GruKeepsBound | src/dsp/rnnoise/nnet.c:82-93 | one step keeps the state in [-1, 1] for any weights and input |
| Network.ComputeGenericGru | src/dsp/rnnoise/nnet.c:65-94 | the in-place update through scratch buffers is the gated recurrent unit |
| Network.ComputeGenericConv1d | src/dsp/rnnoise/nnet.c:113-123 | the layer sees remembered then new samples, and remembers the newest it saw |
| Network.ConvRemembersNewest | src/dsp/rnnoise/nnet.c:118-122 | over any run the memory is the newest samples of everything fed in |
| Network.Rnn.ComputeRnn | src/dsp/rnnoise/rnn.c:44-57 | one frame through both convolutions, three recurrent units each fed by the one before, and both heads on the third; each new state as the layer of the state before and the previous layer's new output |
| Network.Reads | src/dsp/rnnoise/rnn.c:44-57 | what each part reads, stated between the new states: the third unit the second's, the second the first's, the heads the third's |
| Network.Chain | src/dsp/rnnoise/rnn.c:48-54 | over any two frames and states: a unit with the same own state and the same predecessor has the same new state, and the heads depend on the third unit only |
| Network.RemembersTwoFrames | src/dsp/rnnoise/rnn.c:48 | after any run of two frames or more the first convolution remembers exactly the last two |
| Network.RunBounded | src/dsp/rnnoise/rnn.c:44-57 | after every run from reset the recurrent states and the second convolution's memory lie in [-1, 1], gains and voice probability in [0, 1] |
| Gains.SmoothedIsDecayedPeak | src/dsp/rnnoise/denoise.c:495-499 | the smoothed gain is the largest decayed raw gain of the history, and in [0, 1] |
| Gains.FallLimited | src/dsp/rnnoise/denoise.c:495-499 | a gain never falls below strength times its last value |
| Gains.Smoother.SetStrength | src/dsp/rnnoise/denoise.c:336-340 | the strength is clamped to [0.3, 0.95] |
| Gains.Smoother.Reset | src/dsp/rnnoise/denoise.c:329-334 | a reset forgets every frame but keeps the strength |
| Gains.Smoother.SmoothGains | src/dsp/rnnoise/denoise.c:495-499 | gains are raised in place and remembered for the next frame |
| Gains.BandIsUnique | src/dsp/rnnoise/denoise.c:60-65 | the bands partition the bins below 400 |
| Gains.BinBetween | src/dsp/rnnoise/denoise.c:141-155 | an interpolated bin lies between its bands' gains |
| Gains.EdgeGain | src/dsp/rnnoise/denoise.c:144-152 | at a band's lower edge the bin has exactly the gain of the band below |
| Gains.EvenSteps | src/dsp/rnnoise/denoise.c:144-154 | inside a band the gain changes by the same amount from bin to bin; the first and the last band are flat |
| Gains.InterpBandGain | src/dsp/rnnoise/denoise.c:141-155 | every bin below 400 gets its interpolated gain, the others are left alone |
| Gains.FrameGains | src/dsp/rnnoise/denoise.c:489-506 | the bin gains of a frame are in [0, 1] and zero from bin 400 up |
| FrameRun.Suppressor.VoicedFrame | src/dsp/rnnoise/denoise.c:489-506 | network, smoothing and interpolation of one frame of a run: the bins interpolate the decayed peaks of the network's own gains on the run so far |
| FrameRun.RunSteps | src/dsp/rnnoise/denoise.c:472-515 | over every run, with silent frames, strength changes and resets among it, the bin gains of each voiced frame interpolate the decayed peaks of what the network gave on the voiced frames since the last reset, and lie in [0, 1] |
| RingIndex.PublishAppends | src/dsp/tagged_block_queue.h:29-40 | filling the free slot and advancing the write index appends |
| RingIndex.BulkAppends | src/ring_buffer.h:16-34 | placing a run of elements around the end appends them in order |
| TaggedQueue.TaggedBlockQueue.Push | src/dsp/tagged_block_queue.h:29-40 | appends one tagged block unless the span is short or capacity - 1 blocks wait |
| TaggedQueue.TaggedBlockQueue.Pop | src/dsp/tagged_block_queue.h:42-49 | removes and returns the oldest block, if any |
| TaggedQueue.TaggedBlockQueue.DiscardAll | src/dsp/tagged_block_queue.h:52-55 | empties the queue |
| QueueThreads.ProducerRefines | src/dsp/tagged_block_queue.h:29-40 | every load, copied word and store of push is a step of the atomic queue or no step |
| QueueThreads.ConsumerRefines | src/dsp/tagged_block_queue.h:42-55 | the same for pop and discardAll, which drops exactly what was queued when it looked |
| QueueThreads.NoTornCopy | src/dsp/tagged_block_queue.h:35-47 | no slot is written while it is being copied out |
| QueueThreads.RunIsFifo | src/dsp/tagged_block_queue.h:29-55 | in every interleaving blocks leave whole and in push order, and pushed = left + queued |
| OutputFifo.ChunksAndResidue | src/dsp/dpdfnet_processor.cpp:182-194 | cutting loses and reorders nothing |
| OutputFifo.StreamingCut | src/dsp/dpdfnet_processor.cpp:164-195 | cutting as samples arrive equals cutting the whole stream |
| OutputFifo.OutputBuffer.AppendOutput | src/dsp/dpdfnet_processor.cpp:164-195 | ends below one block, never reaches the full branch, and queued or dropped blocks plus what is pending are what was pending plus the new samples |
| Protocol.StepKeeps | src/dsp/dpdfnet_processor.cpp:154-321 | every atomic step of render thread, worker and control keeps the protocol's invariants |
| Protocol.EpochSafety | src/dsp/dpdfnet_processor.cpp:604-647 | in every interleaving, what processBlock(e) returns is a whole block of the output the model returned for inputs tagged e, in order, never twice, and none is left out but blocks a full output queue refused or a setEpoch call dropped |
| Protocol.RunFromModel | src/dsp/dpdfnet_processor.cpp:255-313 | every logged entry, and a result the worker still holds, is what a run of the model returned for that input |
| Protocol.OutputLossExplained | src/dsp/dpdfnet_processor.cpp:625-646 | processBlock skips only blocks of older epochs, gives silence only when the queue is empty, and a block is refused only by a full queue |
| Protocol.QueuedIsReturned | src/dsp/dpdfnet_processor.cpp:632-640 | over every run: a queued block whose epoch is still the requested one at the end is then queued or has been returned, unless a setEpoch call dropped it |
| Protocol.NoGaps | src/dsp/dpdfnet_processor.cpp:632-640 | when a block is returned every earlier block of its epoch was returned, refused by a full queue or dropped by a setEpoch call |
| Protocol.ReturnedInSequence | src/dsp/dpdfnet_processor.cpp:604-647 | with no block refused or dropped, returned blocks of an epoch are numbered from zero without a gap |
| Protocol.CallsGetThrough | src/dsp/dpdfnet_processor.cpp:583-626 | a render call is given up only when the processor is not ready or has failed; otherwise its epoch becomes the requested one |
| Protocol.SetEpochClears | src/dsp/dpdfnet_processor.cpp:593-598 | nothing that was queued when setEpoch looked is queued when it returns |
| Protocol.RunsOnlyRequested | src/dsp/dpdfnet_processor.cpp:252-313 | when the worker decides to run a block, and when it keeps a result, the epoch is the one requested at that moment |
| Protocol.FailureWithdrawsReady | src/dsp/dpdfnet_processor.cpp:133-140 | a failed worker withdraws readiness and never publishes it again |
| Protocol.WorkerGetsOn | src/dsp/dpdfnet_processor.cpp:217-316 | while a block waits, each step of a worker that has neither failed nor stopped shortens the line or brings it nearer to the first block |
| Protocol.SessionsArePure | src/dsp/dpdfnet_processor.cpp:230-267 | whenever the model runs it has seen only the current tag since its last reset |
| Protocol.DiscardsOnlyStale | src/dsp/dpdfnet_processor.cpp:241-315 | the worker throws a block or result away only after a newer epoch was requested |
| Protocol.NewestSurvives | src/dsp/dpdfnet_processor.cpp:154-161 | over every run: a block in line, with its epoch still the requested one at the end, is then held or queued, or its output was appended, or it was lost to a failure or an empty result |
| Protocol.SubmittedIsInLine | src/dsp/dpdfnet_processor.cpp:625-628 | a block submitted while there is room is in line |
| RenderCalls.CallsMakeRuns | src/dsp/dpdfnet_processor.cpp:583-647 | render calls whose epochs start at one and never go back need no rule of the protocol: every interleaving with them is one of its runs |
| RenderCalls.PipelineIsEpochSafe | src/dsp/pipeline.h:111-194 | whatever a pipeline has called its denoiser with, in every interleaving what comes back is whole ordered blocks of the right epoch's output, of no epoch past the pipeline's, and none is left out but those a full output queue refused |
| RenderCalls.DropsOnlyOlder | src/dsp/pipeline.h:272-334 | a setEpoch call of a pipeline only drops output of older epochs |
| Lifecycle.Processor.StopWorker | src/dsp/dpdfnet_processor.cpp:328-376 | gives everything back once, or abandons everything when the worker does not stop |
| Lifecycle.Processor.DoPrepare | src/dsp/dpdfnet_processor.cpp:397-581 | succeeds exactly when the session starts, no worker was abandoned and the old one stopped; a failure leaves nothing behind |
| Lifecycle.Processor.Destroy | src/dsp/dpdfnet_processor.cpp:384-395 | the object is freed only when no worker can still run |
| Lifecycle.LifeOf | src/dsp/dpdfnet_processor.cpp:323-676 | over every sequence of events the history tells exactly which prepares succeed (session starts, none abandoned before, the worker then at work stops), when the processor is ready (after a successful prepare with no failure, stop or new prepare since) and when a worker is abandoned; each session is given back exactly once unless abandoned, and after abandoning prepare and isReady stay false for ever |
| Pipeline.AddSilent | src/dsp/pipeline.h:255-263 | a block the watchdog lets be silenced keeps silence bounded |
| Pipeline.DspPipeline.Refresh | src/dsp/pipeline.h:122-136 | a changed setting starts a stream with a new epoch and an empty history, on the denoiser exactly when it is on, requested and ready, off exactly when noise reduction is off |
| Pipeline.DspPipeline.Degrade | src/dsp/pipeline.h:272-293 | falls back to RNNoise under a new epoch and publishes it |
| Pipeline.DspPipeline.Process | src/dsp/pipeline.h:111-194 | what becomes of each block, exactly: on a fresh stream the denoiser's output when it is requested, ready, alive and has some, RNNoise's with no block call when it is not requested or not ready; never denoised when not ready or failed; without output silence, except RNNoise from the fifth block before any output or the third in a row after; at most 4 silent blocks before the first output and 2 in a row after; a fall-back lasts until the next reset; published backend is the active one and Off exactly when noise reduction is off; epochs never go back and every new one is told to the denoiser |
| Pipeline.FallsBackIff | src/dsp/pipeline.h:255-263 | the watchdog gives up exactly at the fifth block of a stream without output, or the third in a row after some |
| SessionTracker.MicSessionStateTracker.Update | src/mic_session_state.h:23-50 | the cached count stays the number of active sessions, and the result says what changed |
| SessionTracker.MicSessionStateTracker.Remove | src/mic_session_state.h:52-60 | the same when a session goes |
| DemandGate.ClosesOnlyAfterQuiet | src/mic_usage_monitor.cpp:290-317 | the gate closes only in demand mode after 400 ms in which every evaluation saw nothing active |
| DemandGate.NeverClosesNearActivity | src/mic_usage_monitor.cpp:290-317 | what an evaluation saw lasts until the next one, and the gate does not close within 400 ms of that |
| DemandGate.HeldOrLate | src/mic_usage_monitor.cpp:290-317 | a gate held open until T stays so until T, whatever is evaluated in whichever mode |
| DemandGate.SeenHolds | src/mic_usage_monitor.cpp:290-317 | activity that only one evaluation saw holds the gate for 400 ms |
| DemandGate.ClosedByQuiet | src/mic_usage_monitor.cpp:290-317 | closing takes an evaluation that read demand mode and saw nothing active |
| DemandGate.OpenedBySeen | src/mic_usage_monitor.cpp:290-317 | opening takes an evaluation that saw activity or demand mode off |
| DemandGate.PassesClose | src/mic_usage_monitor.cpp:397-415 | two passes in a run 400 ms apart, with only quiet between, leave the gate closed |
| DemandGate.FailedOpenStaysOpenIff | src/main.cpp:159-167 | a gate that failed open stays open if and only if no two mode evaluations in demand mode, with none out of it between, are 400 ms apart |
| DemandGate.FailedOpenCloses | src/main.cpp:159-167 | two evaluations in demand mode 400 ms apart close it |
| DemandGate.RunOf | src/mic_usage_monitor.cpp:319-438 | over every timed run of the monitor: an active session means requested and no deadline at every release; what a listened-to observer shows becomes its session's state, and activity it shows opens the gate; only activity or demand mode off opens it; reading demand mode off opens it at once; it closes only at an evaluation in demand mode that saw nothing, never before 400 ms after the beginning of any operation at which a session was active or was seen to have been; and it is closed after a pass that comes 400 ms after another with only quiet between |
| DemandGate.ClosesWhenQuiet | src/mic_usage_monitor.cpp:290-317 | it does close once two evaluations 400 ms apart, and all between, saw nothing active |
| DemandGate.MicUsageMonitor.EvaluateRequestedState | src/mic_usage_monitor.cpp:290-317 | the fields follow the gate, and an active session means requested with no deadline |
| DemandGate.MicUsageMonitor.ApplyState | src/mic_usage_monitor.cpp:331-359 | every change of a tracked state is evaluated with the count it leaves, and activity that ends arms the deadline |
| DemandGate.MicUsageMonitor.ProcessObserverState | src/mic_usage_monitor.cpp:319-360 | which evaluations follow, each with the mode and tick it reads; a pulse that is already over still opens the gate for 400 ms; activity that ends arms a deadline 400 ms ahead; whether or not the key is tracked |
| DemandGate.MicUsageMonitor.RegisterSession | src/mic_usage_monitor.cpp:370-381 | first locked section: a key is tracked once, as inactive |
| DemandGate.MicUsageMonitor.RegistrationFailed | src/mic_usage_monitor.cpp:385-393 | second locked section, at any later moment: the observer goes if it is still there, its key goes whoever holds it, and the gate is evaluated |
| DemandGate.MicUsageMonitor.Happen | src/mic_usage_monitor.cpp:319-438 | for every locked section, exactly what it leaves tracked and which evaluations it makes, each pass and each change of mode one; keys and observers stay paired unless a registration fails whose observer is gone and whose key is tracked |
| DemandGate.AlwaysAccounted | src/mic_usage_monitor.cpp:319-438 | evaluations come at the operation's ticks, every change of the active count is evaluated, and reported activity is seen by an evaluation |
| DemandGate.MicUsageMonitor.CleanupExpiredSessions | src/mic_usage_monitor.cpp:397-421 | exactly the expired observers go, and exactly their keys; when that ends the last activity the deadline is armed |
| DemandGate.MicUsageMonitor.UnregisterAllSessions | src/mic_usage_monitor.cpp:423-438 | everything is forgotten and no deadline stays armed |
| DemandGate.MicUsageMonitor.OnDemandModeChanged | src/mic_usage_monitor.cpp:605-611 | an evaluation that reads demand mode off requests the microphone at once, whatever mode was stored |
| ByteRing.SPSCRingBuffer.Push | src/ring_buffer.h:16-34 | all of the data or none, in one or two pieces |
| ByteRing.SPSCRingBuffer.Pop | src/ring_buffer.h:36-54 | the oldest bytes, in one or two pieces, if that many wait |
| ByteRing.SPSCRingBuffer.Discard | src/ring_buffer.h:71-80 | drops that many bytes or everything |
| ByteRing.SPSCRingBuffer.SizeBlocks | src/ring_buffer.h:61-69 | whole blocks waiting |
| Bridge.Receiver.Trim | src/main.cpp:471-479 | a backlog over three blocks is cut to two, or less when the render thread takes blocks meanwhile; a smaller one is left alone |
| Bridge.Receiver.Idle | src/main.cpp:432-453 | an idle block is discarded; every fiftieth empties the ring, a long stretch disconnects |
| Bridge.Receiver.OnBlock | src/main.cpp:425-486 | an active block is always pushed with at most four then waiting; received = discarded + pushed; the ring holds the newest blocks accepted; the denoiser is reset exactly when idle and active swap |

## Left out

- Float rounding, overflow, NaN and infinities: arithmetic is over the reals, and `std::isfinite` and the other output checks are one arbitrary valid/invalid choice.
- Weak memory: interleavings are sequentially consistent.
- FftAlloc.RnnFftAlloc: what happens after a sub-length was cut to 16 bits is not followed; the outcome says so.
- Fft.RnnFft: shared sub-sampled twiddle tables (a base state) and input strides other than one are not modelled, nor what a write past the stride buffer does.
- Matrix.FindIdxCheck: integers are unbounded; a count at the very ends of the 32-bit range overflows the walk's own arithmetic, which C leaves undefined.
- SparseKernel.SparseSgemv8x4: asks for a table without negative positions, which loading does not check.
- PitchSearch.RnnPitchSearch: asks what the assertions down its call chain ask, so that lags are searched at a quarter rate.
- Layers.LinearInit: 8-bit weights, their scales and the sub-biases are not among the parts asked for.
- Layers.ComputeLinear: the 8-bit weight path and its scales and sub-biases are not modelled.
- Network.Rnn.ComputeRnn: the feature extraction before it (band energies, cosine transform, logarithms) is a parameter.
- OverlapAdd.FrameState.FrameAnalysis: the band energies computed from the spectrum are not modelled.
- OverlapAdd.FrameState.ProcessSilentFrame: the high-pass filter before the frame and the pitch state beside it are not modelled.
- PitchSearch.RnnRemoveDoubling: the square-root normalisation is a parameter, so its accuracy is not stated.
- Downsample.RnnPitchDownsample: the two-channel form is not modelled (its only caller passes one channel), and it asks the length that the assertions down its call chain ask.
- FrameRun.Suppressor.VoicedFrame: the pitch filter and the scaling of the spectrum by the bin gains are not modelled.
- Gains.FrameGains: the pitch filter that also scales the spectrum is not modelled, so a processed frame is only bounded, not described.
- Pipeline.DspPipeline.Process: equaliser, compressor and limiter after noise reduction are not modelled.
- Protocol.EpochSafety: prepare and stop run while no render call is in flight; a render call overlapping them is not modelled.
- Lifecycle.LifeOf: library loading, symbol resolution and path handling are one choice of how far preparing gets.
- Bridge.Receiver.OnBlock: each ring call is atomic; the bridge pops and resets a ring another thread pops from, so no step-level refinement of that ring is claimed.
- DemandGate.MicUsageMonitor.ProcessObserverState: COM callbacks appear as the flags and state they leave behind.
- DemandGate.FailedOpenStaysOpenIff: starts from no armed deadline; changes of mode while starting is still failing are not followed.
- Two-dimensional convolutions, gated linear units, biquads, exponential and logarithm approximations.
- FIXED_POINT builds, AVX and NEON variants.
- WASAPI, COM, sockets, ADB, registry, tray, settings UI and the Android app.
- Counters used only for statistics and logging.
