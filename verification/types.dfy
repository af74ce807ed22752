/**
 * The record types shared by the engine and the presentation layer
 * (types.ts). Every JavaScript `number` that holds a sample is a `real`;
 * every `number` that holds an index or a count is an `int`.
 */
module Types {

  /** A complex sample: real and imaginary part. */
  datatype ComplexNumber = ComplexNumber(re: real, im: real)

  /**
   * The six waveform presets of the signal generator, and `Unrecognised`
   * for any other preset string: the address hash is cast to a preset
   * without a check, so such a string reaches the generator.
   */
  datatype SignalPreset = SingleTone | TwoTones | Impulse | Step | RandomNoise | Chirp | Unrecognised

  /** Sample count, preset, and frequency/amplitude/phase of up to two tones. */
  datatype SignalConfig = SignalConfig(
    N: nat,
    preset: SignalPreset,
    f1: real, a1: real, p1: real,
    f2: real, a2: real, p2: real)

  /**
   * One butterfly of a stage: the stage number, the two operand indices,
   * the twiddle factor W_twiddleN^twiddleK and its label (twiddleK, twiddleN).
   */
  datatype ButterflyData = ButterflyData(
    stage: int,
    indexA: int,
    indexB: int,
    twiddle: ComplexNumber,
    twiddleK: int,
    twiddleN: int)

  /** The measured median times and theoretical counts of both algorithms. */
  datatype ComputationStats = ComputationStats(dftTime: real, fftTime: real, dftOps: OpCount, fftOps: OpCount)

  /** A pair of operation counts. */
  datatype OpCount = OpCount(mults: int, adds: int)

  /** The theoretical counts of both algorithms, as `calculateOpCounts` returns them. */
  datatype OpCountSummary = OpCountSummary(dft: OpCount, fft: OpCount)
}
