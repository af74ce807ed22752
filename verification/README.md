# FFT butterfly visualizer: a verified model of the engine

This project models the computational core of an interactive teaching app
for the radix-2 Fast Fourier Transform:

- the direct DFT;
- the iterative decimation-in-time FFT. It does a bit-reversal reorder,
  then log2 N stages of butterflies, and keeps a snapshot of the buffer and
  the list of butterfly records after every stage;
- the closed-form operation counts of both algorithms;
- the median-of-trials benchmark;
- the test-signal generator with its six presets, and the silent signal it
  produces for any other preset string;
- the bit-reversed row table and the live operation counter of the
  butterfly diagram;
- the animation cursor, which steps through the diagram one butterfly at a
  time.

Module layout, one module per concept:

| module | file | models |
|---|---|---|
| `Types` | types.dfy | the records of `types.ts` |
| `Wrappers` | wrappers.dfy | `Option` |
| `Arith`, `Blocks` | arith.dfy | powers of two, `Log2`, and the block and offset arithmetic of a stage |
| `ComplexMath` | complex.dfy | `utils/math.ts` |
| `Permutations` | permutations.dfy | reindexing preserves a multiset |
| `FftIndex` | fft_index.dfy | reference definitions: bit reversal, the butterfly records of a stage, the buffer a stage produces |
| `Fft` | fft.dfy | `utils/fft.ts`: `bitReverse`, `getFFTStages`, `getDFT`, `calculateOpCounts` |
| `Benchmark` | benchmark.dfy | the sort-and-pick-median part of `benchmarkComputation` |
| `Signal` | signal.dfy | `utils/signal.ts` |
| `ButterflyVisualizer` | butterfly_visualizer.dfy | `bitReverseMap` and `liveOps` |
| `App` | app.dfy | the animation cursor of `App.tsx` and the accepted sample counts |

How the source is mapped:

- Samples are `real`. `Math.sin` and `Math.cos` are not defined here. They are
  the two fields of a `Trig` value that every trigonometric operation takes.
  Where a property needs a value of them, it assumes it in a `requires` (only
  `cos 0 == 1` and `sin 0 == 0` are ever used).
- The loops of the source are methods. Each is proved against a reference
  function: `BitReverse` against `ReversedBits`, `ButterflyStage` against
  `StageOutput` and `StageButterflies`, `GetDFT` against `DftBin`,
  `SortTimes` against `Sorted` plus the multiset.
- The reference functions carry the lemmas:
  - bit reversal is an involution and a permutation;
  - the operands of a stage partition the buffer;
  - every butterfly record computes `A + W B` and `A - W B`;
  - the counts match the number of butterfly records.
- The animation cursor is a class with the three pieces of state the
  component keeps. Its two step methods are proved equal to the pure
  functions `Forward` and `Backward`. Those functions carry the cursor
  invariant, the round trips, and the link to the live counter.

## Model

| member | source | states |
|---|---|---|
| ComplexMath.From | utils/math.ts:5-7 | the number with the given real part and imaginary part; the imaginary part defaults to 0 |
| ComplexMath.Add | utils/math.ts:9-11 | the real and imaginary parts add independently |
| ComplexMath.Sub | utils/math.ts:13-15 | the difference is the number that, added to b, gives back a (inverse of addition) |
| ComplexMath.Mul | utils/math.ts:17-22 | the product of (a.re + i a.im) and (b.re + i b.im), with i^2 == -1 |
| ComplexMath.Exp | utils/math.ts:32-37 | the point at the given angle on the unit circle: cos for the real part, sin for the imaginary part |
| ComplexMath.TwiddleAngle | utils/math.ts:39-41 | the angle of W_N^k is 0 for k == 0 and strictly negative for k > 0 and N > 0 (clockwise rotation) |
| ComplexMath.Twiddle | utils/math.ts:39-43 | W_N^k is the unit-circle point at the twiddle angle |
| ComplexMath.Copy | utils/math.ts:45-47 | the copy agrees with the original in both parts |
| ComplexMath.AddCommutes | utils/math.ts:9-11 | a + b == b + a |
| ComplexMath.SubAfterAdd | utils/math.ts:9-15 | (a + b) - b == a |
| ComplexMath.MulCommutes | utils/math.ts:17-22 | a b == b a |
| ComplexMath.MulIdentity | utils/math.ts:17-22 | 1 is a two-sided identity of multiplication |
| ComplexMath.MulZero | utils/math.ts:17-22 | 0 times anything is 0 |
| ComplexMath.TwiddleZero | utils/math.ts:39-43 | W_N^0 == 1 when cos 0 == 1 and sin 0 == 0 |
| ComplexMath.TwiddleScales | utils/math.ts:39-43 | W_(cN)^(ck) == W_N^k for every nonzero c |
| FftIndex.ReversedBits | utils/fft.ts:5-12 | the reversal of the low `bits` bits of n is below 2^bits |
| FftIndex.ReversedBitsBit | utils/fft.ts:5-12 | bit i of the reversal is bit bits-1-i of n |
| FftIndex.ReversedBitsTop | utils/fft.ts:5-12 | reversing b+1 bits moves the top bit of n to the bottom, after the reversal of the low b bits |
| FftIndex.ReversedBitsInvolution | utils/fft.ts:5-12 | reversing twice gives back every n < 2^bits |
| FftIndex.ReversedBitsInjective | utils/fft.ts:5-12 | two indices below 2^bits have the same reversal if and only if they are equal |
| FftIndex.ReversedBitsTable3 | utils/fft.ts:5-12 | the 8-point table sends 4 to 1 and 6 to 3, and fixes 5 and 7 |
| FftIndex.StageButterflies | utils/fft.ts:49-77 | a stage over N samples emits N/2 records, the i-th being butterfly i of the stage |
| FftIndex.ButterflyInBlocks | utils/fft.ts:54-58 | record i has operand A in block i div mHalf at offset i mod mHalf, operand B mHalf further on, and twiddleK equal to the offset |
| FftIndex.ButterflyShape | utils/fft.ts:54-75 | every record of stage s has stage s, twiddleN == 2^s and twiddleK < 2^(s-1) equal to indexA mod 2^s; also 0 <= indexA < indexB == indexA + mHalf < N, and the twiddle is W_twiddleN^twiddleK |
| FftIndex.StagePartition | utils/fft.ts:54-66 | every buffer position is an operand of exactly one butterfly of the stage |
| FftIndex.BlockButterfly | utils/fft.ts:54-58 | the butterfly at offset j of block blk is record blk*mHalf + j, and it owns both of its operands |
| FftIndex.OwnerOperands | utils/fft.ts:57-61 | both operands of the butterfly owning a position lie inside the buffer |
| FftIndex.StageOutput | utils/fft.ts:52-66 | a stage keeps the buffer length; position p holds its owner's A + W B or A - W B |
| FftIndex.BlockRecord | utils/fft.ts:56-75 | the record pushed at block start k, offset j, is butterfly blk*mHalf + j of the stage |
| FftIndex.BlockStep | utils/fft.ts:60-66 | the stage value at k+j is a + W b and at k+j+mHalf is a - W b, with W == W_m^j |
| FftIndex.ButterflyAlgebra | utils/fft.ts:56-66 | for every record, the next buffer holds A + W B at indexA and A - W B at indexB, with A and B read from the previous buffer |
| Fft.BitReverse | utils/fft.ts:5-12 | the shift loop returns the reversal of the low `bits` bits of n, below 2^bits |
| Fft.ShiftInBit | utils/fft.ts:8-9 | one shift step keeps (reversed so far) * 2^left + reversal(rest) constant |
| Fft.BitReversal | utils/fft.ts:36-40 | sample n lands at slot reversal(n), slot r holds sample reversal(r), and the reordered buffer is a permutation of the input |
| Fft.ButterflyStage | utils/fft.ts:49-80 | one stage yields the reference stage output and the stage's records in emission order |
| Fft.StageBlock | utils/fft.ts:54-77 | after the block at k, the records cover the stage up to k + m and every position below k + m holds its stage value |
| Fft.ButterflyBlock | utils/fft.ts:55-76 | the j loop writes a + W b and a - W b into the block, leaves the rest of the buffer unchanged, and returns the block's records in order of j |
| Fft.NextBlock | utils/fft.ts:54 | a block start below N that m divides is blk*m, and the next block start k + m still fits in the buffer |
| Fft.AppendBlock | utils/fft.ts:68-75 | the records before the block followed by the block's records are the stage's records up to k + m |
| Fft.BlockOutput | utils/fft.ts:65-66 | the written block holds the reference stage values of its positions |
| Fft.GetFFTStages | utils/fft.ts:28-84 | reordered is the bit-reversal permutation of x; there are log2 N + 1 snapshots of length N, each equal to the stage applied to the one before; there are log2 N groups, each the stage's N/2 records |
| Fft.ButterflyTotal | utils/fft.ts:78-80 | groups of N/2 records hold (N/2) times the number of groups records in all |
| Fft.GetDFT | utils/fft.ts:14-26 | bin k is the sum of x[n] W_N^(kn) over n, accumulated from n == 0 |
| Fft.DftOfImpulse | utils/fft.ts:14-26 | every bin of the transform of a unit impulse is 1 |
| Fft.ImpulsePartialSum | utils/fft.ts:17-22 | every partial sum of an impulse's bin is 1 |
| Fft.DftBinZeroIsSum | utils/fft.ts:17-22 | bin 0 is the plain sum of the samples |
| Fft.BinZeroTerm | utils/fft.ts:20-21 | each term of bin 0 is the sample itself |
| Fft.CalculateOpCounts | utils/fft.ts:86-98 | the FFT does two additions per multiplication, and the DFT does N more multiplications than additions (N^2 against N (N - 1)) |
| Fft.FftCountsMatchButterflies | utils/fft.ts:86-98 | the FFT multiplication count equals the number of butterfly records of the transform, and the FFT does two additions per multiplication |
| Fft.FftCheaperThanDft | utils/fft.ts:86-98 | the FFT never needs more multiplications or more additions than the DFT |
| Fft.OpCountExamples | utils/fft.ts:86-98 | N == 8 gives 64/56 and 12/24; N == 16 gives 256/240 and 32/64 |
| Benchmark.BenchmarkComputation | utils/fft.ts:100-109 | the result is the median of the trial durations (5 trials unless given), and absent when no trial ran |
| Benchmark.Durations | utils/fft.ts:101-106 | one duration per trial (none when trials <= 0), the i-th being the i-th measurement |
| Benchmark.SortTimes | utils/fft.ts:107 | the array ends sorted ascending and is a permutation of what it held |
| Benchmark.InsertAt | utils/fft.ts:107 | inserting element i into the sorted prefix gives a sorted prefix through i, leaves the suffix alone, and keeps the multiset |
| Benchmark.Swap | utils/fft.ts:107 | exchanging two neighbours keeps the multiset |
| Benchmark.Insert | utils/fft.ts:107 | insertion adds exactly one copy of x |
| Benchmark.InsertSorted | utils/fft.ts:107 | inserting into a sorted list keeps it sorted |
| Benchmark.SortAscending | utils/fft.ts:107 | the reference sort is a permutation of its input |
| Benchmark.SortAscendingSorted | utils/fft.ts:107 | the reference sort is ascending |
| Benchmark.SortedUnique | utils/fft.ts:107 | two ascending lists with the same multiset are equal, so any correct sort gives the same median |
| Benchmark.Median | utils/fft.ts:107-108 | absent exactly when there are no durations |
| Benchmark.MedianRank | utils/fft.ts:108 | the median is one of the durations; at least half+1 of them are at most it, and at least N - N/2 are at least it |
| Benchmark.MedianOfArrangement | utils/fft.ts:107-108 | the median is the middle entry of any ascending arrangement of the durations |
| Benchmark.MedianOfFive | utils/fft.ts:100-109 | five durations a, b, c, d, e in the order b <= d <= c <= e <= a (the order of the 5, 1, 3, 2, 4 example) report c, the third smallest; any other order follows from MedianOfArrangement |
| Benchmark.MedianExample | utils/fft.ts:100-109 | durations 5, 1, 3, 2, 4 give median 3 |
| Signal.SampleTime | utils/signal.ts:11 | the sample times lie in [0, 1) |
| Signal.GenerateSignal | utils/signal.ts:5-38 | N samples with imaginary part 0, sample n holding the value of its preset's case at time n/N, or 0 for a preset outside the six |
| Signal.ImpulseSample | utils/signal.ts:21-23 | the impulse is 1 exactly at sample 0 and 0 elsewhere |
| Signal.StepSample | utils/signal.ts:24-26 | the step is 1 exactly from sample N/2 on (2n >= N) and 0 before |
| Signal.TwoTonesIsSum | utils/signal.ts:14-20 | two tones are the first single tone plus the single tone with (f2, a2, p2) |
| Signal.ChirpIsRisingTone | utils/signal.ts:30-33 | the chirp's value at time t equals a phase-0 tone of frequency f t / 2 evaluated at t; its instantaneous frequency is f t, sweeping from 0 to f |
| Signal.UnrecognisedIsSilent | utils/signal.ts:10-35 | a preset string outside the six matches no case, so every sample is 0 |
| Signal.ImpulseSpectrumIsFlat | utils/signal.ts:21-23 | the generated impulse has a flat spectrum: every DFT bin is 1 |
| ButterflyVisualizer.BitReverseMap | components/ButterflyVisualizer.tsx:35-48 | row i of the table is the reversal of i over log2 N bits, the same as `bitReverse` |
| ButterflyVisualizer.BitReverseMapIsPermutation | components/ButterflyVisualizer.tsx:35-48 | the table is a permutation of the rows and its own inverse |
| ButterflyVisualizer.LiveOps | components/ButterflyVisualizer.tsx:51-68 | nothing is counted at stage 0, and there are always two additions per multiplication |
| ButterflyVisualizer.LiveOpsAtEnd | components/ButterflyVisualizer.tsx:51-68 | at the last butterfly of the last stage the counter equals the FFT counts of `calculateOpCounts` |
| App.Forward | App.tsx:85-103 | a step forward only stops playback exactly when the cursor is at the end |
| App.Backward | App.tsx:105-120 | a step back never changes playback, and changes nothing exactly when the cursor is in the bit-reversal column |
| App.ForwardKeepsValid | App.tsx:85-103 | stepping forward keeps the cursor on an existing butterfly (or on stage 0 with butterfly -1) |
| App.BackwardKeepsValid | App.tsx:105-120 | stepping back keeps the cursor valid |
| App.AtEndIsLastButterfly | App.tsx:93-101 | a valid cursor is at the end if and only if it is on the last butterfly of the last stage |
| App.BackwardAfterForward | App.tsx:85-120 | away from the end, stepping back undoes a step forward |
| App.ForwardAfterBackward | App.tsx:85-120 | away from stage 0, stepping forward undoes a step back |
| App.ForwardCountsOneButterfly | App.tsx:85-103 | each step forward before the end raises the live counter by one multiplication and two additions |
| App.CounterAtEnd | App.tsx:93-101 | at the end of the animation the live counter shows the FFT counts |
| App.AnimationCursor.constructor | App.tsx:45-47 | the cursor starts at stage 0, no butterfly, paused |
| App.AnimationCursor.ResetCursor | App.tsx:78-81 | a new configuration puts the cursor back at stage 0, no butterfly, paused |
| App.AnimationCursor.StepForward | App.tsx:85-103 | with no transform results nothing changes; otherwise the new state is `Forward` of the old one |
| App.AnimationCursor.StepBackward | App.tsx:105-120 | with no transform results nothing changes; otherwise the new state is `Backward` of the old one |
| App.InitialN | App.tsx:22-23 | the sample count is always one of 2, 4, 8, 16, 32; an accepted parameter is kept, anything else gives 16 |
| App.InitialNIsPowerOfTwo | App.tsx:22-23 | every accepted sample count is 2^b with 1 <= b <= 5 |
| App.SharedLargeSizeIsLost | App.tsx:22-23 | as written, an address shared at 64, 128 or 256 samples, all offered by the settings panel, reopens at 16 |
| App.AcceptedN | App.tsx:22-23 | the corrected whitelist keeps every size the settings panel offers, agrees with the original on 2 to 32, and gives 16 otherwise |
| App.AcceptedNIsPowerOfTwo | App.tsx:22-23 | every count the corrected whitelist accepts is 2^b with 1 <= b <= 8 |

## Left out

- Floating point: samples, times and angles are exact reals. `Math.PI` is its decimal literal, and `Math.sin` and `Math.cos` are arbitrary functions passed in as `trig`. Rounding error and NaN/Infinity are not modelled.
- `Complex.magnitude` and `Complex.phase` (utils/math.ts:24-30) are left out. They need a square root and atan2, and nothing in the modelled core calls them.
- The FFT output is not proved equal to the DFT. That needs trigonometric identities (W_N^(k + N/2) == -W_N^k) that an uninterpreted `trig` cannot supply.
- Fft.BitReverse: JavaScript's `<<`, `|`, `&` and `>>=` work on 32-bit integers. The model uses unbounded naturals, which agree with them for every bit count below 31. The settings panel offers up to 256 samples (components/SignalSettings.tsx:21), so at most 8 bits are used.
- Fft.GetFFTStages: requires a power-of-two length. For other lengths `Math.log2` is fractional, and the source can then write the reordered buffer at out-of-range slots. Every sample count the app can set (2 to 32 from the address, 8 to 256 from the settings panel) is a power of two.
- Fft.CalculateOpCounts: requires a power-of-two N, so `Math.round` is the identity on the counts. Other N, with a fractional logarithm, are not modelled.
- Benchmark.BenchmarkComputation: `performance.now()` and the timed call `fn(x)` are replaced by `elapsed(i)`, the measured duration of trial i. The timing itself and its side effects are not modelled.
- Benchmark.SortTimes: the engine's sort algorithm is unspecified. The model sorts by insertion. `SortedUnique` shows that any correct ascending sort gives the same list, and so the same median.
- Benchmark.Median: for an even number of trials the element at index N/2 (the upper median) is returned, as the code does. No interpolation is done.
- Signal.GenerateSignal: `Math.random()` is the parameter `random(n)`, the draw for sample n. A preset string outside the six is one value, `Unrecognised`, rather than the string itself. Such a string can reach the generator because App.tsx:26 casts the address parameter without a check. It matches no case of the switch, so every sample keeps its initial 0 and no error is raised (`UnrecognisedIsSilent`).
- ButterflyVisualizer.LiveOps: requires an even N. For odd N, `N / 2` in the source is fractional, and the diagram is never drawn for odd N.
- App.Forward: requires the active stage to lie within the stages of the transform. Beyond them `fftData.butterflies[activeStage - 1]` is undefined and the source throws.
- App.Backward: requires the active stage to lie within the stages of the transform, like `Forward`. The source itself only reads `butterflies[activeStage - 2]` when the active butterfly is at most 0 and the stage is above 1, so it would also step back from a stage beyond the last one. No call can reach such a state: the reset (`ResetCursor`) and both steps keep the stage between 0 and the number of stages (`ForwardKeepsValid`, `BackwardKeepsValid`).
- App.InitialN: the address-hash parsing is abstracted to an optional integer. `None` is a parameter that `parseInt` turns into NaN. The other configuration fields read from the hash are not modelled.
- React rendering, SVG drawing, charts, the playback interval (`setInterval`), the play/pause toggle (App.tsx:195, `setIsPlaying(!isPlaying)`, the only setter that turns playback on, so in `App.AnimationCursor` `isPlaying` is never set to true), the clipboard and writing the address hash are outside the model. Of the configuration effect only the final cursor reset is modelled; generating the signal, the transform and the statistics are modelled by their own members.
- The stale-closure behaviour of `useCallback` is not modelled. Each step is assumed to see the state current at the time of the call.

## Findings

| source | as written | input that shows it | evidently intended | confidence | as-written member | corrected member |
|---|---|---|---|---|---|---|
| App.tsx:22-23 | the sample count read from the address is kept only when it is 2, 4, 8, 16 or 32 | the settings panel (components/SignalSettings.tsx:21) offers 64; the configuration effect writes `N=64` into the address (App.tsx:62-64); reopening that address gives N == 16 | every size the settings panel offers survives a shared address | medium, not executed | App.SharedLargeSizeIsLost (about App.InitialN) | App.AcceptedN, with App.AcceptedNIsPowerOfTwo |
