/**
 * The two computations of the butterfly diagram component
 * (components/ButterflyVisualizer.tsx) that are not drawing: the table of
 * bit-reversed row indices and the operation counter of the animation.
 */
module ButterflyVisualizer {
  import opened Types
  import opened Arith
  import opened FftIndex
  import opened Fft
  import opened Permutations

  /**
   * `bitReverseMap` for N == 2^bits rows: entry i is i with its low `bits`
   * bits reversed, computed by the same shift loop as `bitReverse`, so the
   * two agree (both are `ReversedBits`).
   */
  method BitReverseMap(N: nat) returns (reversal: seq<nat>)
    requires IsPowerOfTwo(N)
    ensures |reversal| == N
    ensures forall i :: 0 <= i < N ==> reversal[i] == ReversedBits(i, Log2(N))
  {
    var table := new nat[N];
    var bits := Log2(N);
    for i := 0 to N
      invariant forall q :: 0 <= q < i ==> table[q] == ReversedBits(q, bits)
    {
      var reversed: nat := 0;
      var temp: nat := i;
      for b := 0 to bits
        invariant reversed * Pow2(bits - b) + ReversedBits(temp, bits - b) == ReversedBits(i, bits)
        invariant forall q :: 0 <= q < i ==> table[q] == ReversedBits(q, bits)
      {
        ShiftInBit(reversed, temp, bits - b - 1);
        reversed := reversed * 2 + temp % 2;
        temp := temp / 2;
      }
      assert reversed == ReversedBits(i, bits);
      table[i] := reversed;
    }
    reversal := table[..];
  }

  /**
   * The table is a permutation of the rows: every entry is a row, no two
   * rows map to the same entry, and looking an entry up again returns the
   * row it came from.
   */
  lemma BitReverseMapIsPermutation(N: nat, reversal: seq<nat>)
    requires IsPowerOfTwo(N) && |reversal| == N
    requires forall i :: 0 <= i < N ==> reversal[i] == ReversedBits(i, Log2(N))
    ensures forall i :: 0 <= i < N ==> reversal[i] < N && reversal[reversal[i]] == i
    ensures Injective(reversal)
  {
    var bits := Log2(N);
    forall i | 0 <= i < N
      ensures reversal[i] < N && reversal[reversal[i]] == i
    {
      ReversedBitsInvolution(i, bits);
    }
    forall i, j | 0 <= i < j < N
      ensures reversal[i] != reversal[j]
    {
      ReversedBitsInjective(i, j, bits);
    }
  }

  /**
   * `liveOps` at cursor (activeStage, activeButterflyIndex) of an N-row
   * diagram: nothing before stage 1; otherwise N / 2 butterflies per
   * completed stage plus those up to and including the active one, each
   * butterfly costing one multiplication and two additions.
   */
  function LiveOps(N: int, activeStage: int, activeButterflyIndex: int): (ops: OpCount)
    requires N % 2 == 0
    ensures ops.adds == 2 * ops.mults
    ensures activeStage == 0 ==> ops == OpCount(0, 0)
  {
    if activeStage == 0 then OpCount(0, 0)
    else
      var completedStages := activeStage - 1;
      var bfsPerStage := N / 2;
      var mults := completedStages * bfsPerStage;
      var adds := completedStages * N;
      MulDouble(completedStages, bfsPerStage);
      if activeButterflyIndex != -1 then
        OpCount(mults + (activeButterflyIndex + 1), adds + (activeButterflyIndex + 1) * 2)
      else
        OpCount(mults, adds)
  }

  /**
   * At the last butterfly of the last stage of an N-point transform the
   * counter shows the FFT counts of `calculateOpCounts(N)`.
   */
  lemma LiveOpsAtEnd(N: nat)
    requires IsPowerOfTwo(N) && N >= 2
    ensures LiveOps(N, Log2(N), N / 2 - 1) == CalculateOpCounts(N).fft
  {
    var bits := Log2(N);
    assert bits >= 1;
    MulSucc(bits - 1, N / 2);
    MulSucc(bits - 1, N);
    assert (N / 2) * bits == bits * (N / 2) && N * bits == bits * N;
  }
}
