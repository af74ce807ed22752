/**
 * The test-signal generator (utils/signal.ts): N real-valued samples at
 * times t == n / N, shaped by one of six presets (any other preset string
 * gives silence). `Math.random()` of the noise preset is the parameter
 * `random(n)`, the draw for sample n.
 */
module Signal {
  import opened Types
  import opened ComplexMath
  import opened Fft

  /** The time of sample n of N: t == n / N. */
  function SampleTime(n: nat, N: nat): (t: real)
    requires N > 0
    ensures 0.0 <= t
    ensures n < N ==> t < 1.0
  {
    (n as real) / (N as real)
  }

  /** The tone a sin(2 PI f t + p). */
  function Tone(trig: Trig, f: real, a: real, p: real, t: real): real {
    a * trig.sin(2.0 * PI * f * t + p)
  }

  /** The chirp a sin(2 PI (f / 2) t^2), sweeping from frequency 0 at t == 0 to f at t == 1. */
  function ChirpTone(trig: Trig, f: real, a: real, t: real): real {
    a * trig.sin(2.0 * PI * (f / 2.0) * t * t)
  }

  /** The value the preset's case of the switch assigns to sample n of N. */
  function SampleValue(trig: Trig, config: SignalConfig, n: nat, random: real): real
    requires n < config.N
  {
    var t := SampleTime(n, config.N);
    match config.preset
    case SingleTone => Tone(trig, config.f1, config.a1, config.p1, t)
    case TwoTones => Tone(trig, config.f1, config.a1, config.p1, t) + Tone(trig, config.f2, config.a2, config.p2, t)
    case Impulse => if n == 0 then 1.0 else 0.0
    case Step => if (n as real) >= (config.N as real) / 2.0 then 1.0 else 0.0
    case RandomNoise => (random * 2.0 - 1.0) * config.a1
    case Chirp => ChirpTone(trig, config.f1, config.a1, t)
    case Unrecognised => 0.0
  }

  /**
   * `generateSignal(config)`: fill a buffer of `config.N` samples, each the
   * real value of its preset with imaginary part 0.
   */
  method GenerateSignal(trig: Trig, config: SignalConfig, random: nat -> real) returns (signal: seq<ComplexNumber>)
    ensures |signal| == config.N
    ensures forall n :: 0 <= n < |signal| ==> signal[n].im == 0.0
    ensures forall n :: 0 <= n < |signal| ==> signal[n].re == SampleValue(trig, config, n, random(n))
  {
    var N := config.N;
    var buffer := new ComplexNumber[N];
    for n := 0 to N
      invariant forall q :: 0 <= q < n ==> buffer[q] == From(SampleValue(trig, config, q, random(q)), 0.0)
    {
      var val := 0.0;
      var t := SampleTime(n, N);
      match config.preset {
        case SingleTone =>
          val := Tone(trig, config.f1, config.a1, config.p1, t);
        case TwoTones =>
          val := Tone(trig, config.f1, config.a1, config.p1, t) + Tone(trig, config.f2, config.a2, config.p2, t);
        case Impulse =>
          val := if n == 0 then 1.0 else 0.0;
        case Step =>
          val := if (n as real) >= (N as real) / 2.0 then 1.0 else 0.0;
        case RandomNoise =>
          val := (random(n) * 2.0 - 1.0) * config.a1;
        case Chirp =>
          val := ChirpTone(trig, config.f1, config.a1, t);
        case Unrecognised =>
      }
      buffer[n] := From(val, 0.0);
    }
    signal := buffer[..];
  }

  // ---------------------------------------------------------------------
  // The presets

  /** The impulse is 1 at sample 0 and 0 everywhere else. */
  lemma ImpulseSample(trig: Trig, config: SignalConfig, n: nat, random: real)
    requires config.preset == Impulse && n < config.N
    ensures SampleValue(trig, config, n, random) == 1.0 <==> n == 0
    ensures n != 0 ==> SampleValue(trig, config, n, random) == 0.0
  {
  }

  /** The step is 0 on the first half of the samples and 1 from N / 2 on. */
  lemma StepSample(trig: Trig, config: SignalConfig, n: nat, random: real)
    requires config.preset == Step && n < config.N
    ensures SampleValue(trig, config, n, random) == 1.0 <==> 2 * n >= config.N
    ensures 2 * n < config.N ==> SampleValue(trig, config, n, random) == 0.0
  {
    var half := (config.N as real) / 2.0;
    assert (n as real) >= half <==> 2 * n >= config.N;
  }

  /**
   * Two tones are the sum of the single tone (f1, a1, p1) and the single
   * tone (f2, a2, p2), sampled at the same times.
   */
  lemma TwoTonesIsSum(trig: Trig, config: SignalConfig, n: nat, random: real)
    requires config.preset == TwoTones && n < config.N
    ensures SampleValue(trig, config, n, random)
         == SampleValue(trig, config.(preset := SingleTone), n, random)
          + SampleValue(trig, config.(preset := SingleTone, f1 := config.f2, a1 := config.a2, p1 := config.p2), n, random)
  {
  }

  /**
   * The chirp's value at time t equals a phase-0 tone of frequency f t / 2
   * evaluated at t; its instantaneous frequency, the rate of its phase, is
   * f t, rising from 0 at t == 0 to f at t == 1.
   */
  lemma ChirpIsRisingTone(trig: Trig, f: real, a: real, t: real)
    ensures ChirpTone(trig, f, a, t) == Tone(trig, f * t / 2.0, a, 0.0, t)
  {
    var chirpAngle := 2.0 * PI * (f / 2.0) * t * t;
    var toneAngle := 2.0 * PI * (f * t / 2.0) * t + 0.0;
    assert chirpAngle == toneAngle;
  }

  /**
   * A preset string outside the six matches no case of the switch, so every
   * sample keeps its initial value 0.
   */
  lemma UnrecognisedIsSilent(trig: Trig, config: SignalConfig, random: nat -> real, signal: seq<ComplexNumber>)
    requires config.preset == Unrecognised
    requires |signal| == config.N
    requires forall n :: 0 <= n < |signal| ==> signal[n] == From(SampleValue(trig, config, n, random(n)), 0.0)
    ensures forall n :: 0 <= n < |signal| ==> signal[n] == From(0.0, 0.0)
  {
  }

  /**
   * The generated impulse has a flat spectrum: every bin of its direct
   * transform is 1, provided cos 0 == 1 and sin 0 == 0.
   */
  lemma ImpulseSpectrumIsFlat(trig: Trig, config: SignalConfig, random: nat -> real, signal: seq<ComplexNumber>, k: int)
    requires trig.cos(0.0) == 1.0 && trig.sin(0.0) == 0.0
    requires config.preset == Impulse && config.N >= 1
    requires |signal| == config.N
    requires forall n :: 0 <= n < |signal| ==> signal[n] == From(SampleValue(trig, config, n, random(n)), 0.0)
    ensures DftBin(trig, signal, k) == From(1.0, 0.0)
  {
    forall n | 1 <= n < |signal|
      ensures signal[n] == From(0.0, 0.0)
    {
      ImpulseSample(trig, config, n, random(n));
    }
    DftOfImpulse(trig, signal, k);
  }
}
