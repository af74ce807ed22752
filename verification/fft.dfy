/**
 * The transform engine (utils/fft.ts): bit reversal of an index, the staged
 * radix-2 decimation-in-time FFT that records every stage snapshot and every
 * butterfly, the direct O(N^2) transform, and the closed-form operation
 * counts. Each method is proved against the reference definitions of module
 * FftIndex; the buffers it allocates are its own, so no caller state changes.
 */
module Fft {
  import opened Types
  import opened Arith
  import opened ComplexMath
  import opened FftIndex
  import opened Permutations

  /**
   * `bitReverse(n, bits)`: shift the low bit of `n` into `reversed`,
   * `bits` times.
   */
  method BitReverse(n: nat, bits: nat) returns (reversed: nat)
    ensures reversed == ReversedBits(n, bits)
    ensures reversed < Pow2(bits)
  {
    reversed := 0;
    var rest := n;
    for i := 0 to bits
      invariant reversed * Pow2(bits - i) + ReversedBits(rest, bits - i) == ReversedBits(n, bits)
    {
      ShiftInBit(reversed, rest, bits - i - 1);
      reversed := reversed * 2 + rest % 2;
      rest := rest / 2;
    }
  }

  /** One iteration of `BitReverse` keeps the not-yet-reversed bits accounted for. */
  lemma {:induction false} ShiftInBit(reversed: nat, rest: nat, k: nat)
    ensures reversed * Pow2(k + 1) + ReversedBits(rest, k + 1)
         == (reversed * 2 + rest % 2) * Pow2(k) + ReversedBits(rest / 2, k)
  {
    var P := Pow2(k);
    assert Pow2(k + 1) == 2 * P;
    assert ReversedBits(rest, k + 1) == (rest % 2) * P + ReversedBits(rest / 2, k);
    ShiftDistributes(reversed, rest % 2, P);
  }

  lemma ShiftDistributes(reversed: int, bit: int, P: int)
    ensures reversed * (2 * P) + bit * P == (reversed * 2 + bit) * P
  {
  }

  // ---------------------------------------------------------------------
  // The staged FFT

  /**
   * Stage s of `getFFTStages`: copy the current buffer, then for every block
   * start k (step m) and offset j < mHalf write the butterfly
   * `next[k+j] = a + W b`, `next[k+j+mHalf] = a - W b` and record it.
   * The buffer produced is `StageOutput` and the records are the stage's
   * butterflies in emission order.
   */
  method ButterflyStage(trig: Trig, currentData: seq<ComplexNumber>, s: nat)
    returns (nextData: seq<ComplexNumber>, stageButterflies: seq<ButterflyData>)
    requires s >= 1 && |currentData| % Pow2(s) == 0
    ensures nextData == StageOutput(trig, currentData, s)
    ensures stageButterflies == StageButterflies(trig, s, |currentData|)
  {
    var N := |currentData|;
    var m := Pow2(s);
    var mHalf := m / 2;
    Pow2Even(s);
    var next := new ComplexNumber[N](p requires 0 <= p < N => currentData[p]);
    stageButterflies := [];
    var k := 0;
    DivModUnique(0, m, 0, 0);
    while k < N
      invariant k <= N && k % m == 0 && 2 * |stageButterflies| == k
      invariant stageButterflies == StageButterflies(trig, s, k)
      invariant forall p :: 0 <= p < k ==> next[p] == StageValue(trig, currentData, s, p)
      invariant forall p :: k <= p < N ==> next[p] == currentData[p]
      decreases N - k
    {
      stageButterflies := StageBlock(trig, currentData, s, m, mHalf, k, next, stageButterflies);
      k := k + m;
    }
    nextData := next[..];
  }

  /**
   * One pass of the block loop of `ButterflyStage`: the block starting at k
   * is written and its records appended, extending the finished prefix of
   * the stage from k to k + m positions.
   */
  method StageBlock(trig: Trig, currentData: seq<ComplexNumber>, s: nat, m: nat, mHalf: nat, k: nat,
                    next: array<ComplexNumber>, done: seq<ButterflyData>)
    returns (extended: seq<ButterflyData>)
    requires s >= 1 && m == Pow2(s) && mHalf >= 1 && m == 2 * mHalf
    requires |currentData| % m == 0 && next.Length == |currentData|
    requires k < |currentData| && k % m == 0 && 2 * |done| == k
    requires done == StageButterflies(trig, s, k)
    requires forall p :: 0 <= p < k ==> next[p] == StageValue(trig, currentData, s, p)
    requires forall p :: k <= p < |currentData| ==> next[p] == currentData[p]
    modifies next
    ensures k + m <= |currentData| && (k + m) % m == 0 && 2 * |extended| == k + m
    ensures extended == StageButterflies(trig, s, k + m)
    ensures forall p :: 0 <= p < k + m ==> next[p] == StageValue(trig, currentData, s, p)
    ensures forall p :: k + m <= p < |currentData| ==> next[p] == currentData[p]
  {
    ghost var blk := NextBlock(|currentData|, k, m, mHalf);
    var records := ButterflyBlock(trig, currentData, s, m, mHalf, k, next);
    BlockOutput(trig, currentData, s, m, mHalf, blk, k, next[..]);
    AppendBlock(trig, s, m, mHalf, blk, k, done, records);
    extended := done + records;
  }

  /**
   * A block start k below N, with m dividing both, is block number k / m of
   * the buffer; the next block starts at k + m <= N.
   */
  lemma NextBlock(N: nat, k: nat, m: nat, mHalf: nat) returns (blk: nat)
    requires mHalf >= 1 && m == 2 * mHalf && N % m == 0 && k % m == 0 && k < N
    ensures k == blk * m && blk * mHalf == k / 2
    ensures k + m <= N && (k + m) % m == 0
  {
    blk := k / m;
    var q := N / m;
    assert k == blk * m by {
      ExactQuotient(k, m);
    }
    assert N == q * m by {
      ExactQuotient(N, m);
    }
    assert blk + 1 <= q by {
      if q <= blk {
        MulMonotone(q, blk, m);
      }
    }
    assert k + m <= N by {
      MulMonotone(blk + 1, q, m);
      MulSucc(blk, m);
    }
    assert (k + m) % m == 0 by {
      MulSucc(blk, m);
      DivModUnique(k + m, m, blk + 1, 0);
    }
    MulDouble(blk, mHalf);
  }

  /**
   * The inner loop of stage s over the block of span m starting at k:
   * for every offset j < mHalf it writes `a + W b` at k + j and `a - W b`
   * at k + j + mHalf, leaves the rest of the buffer untouched, and returns
   * the block's butterfly records in order of j.
   */
  method ButterflyBlock(trig: Trig, currentData: seq<ComplexNumber>, s: nat, m: nat, mHalf: nat, k: nat, next: array<ComplexNumber>)
    returns (records: seq<ButterflyData>)
    requires mHalf >= 1 && m == 2 * mHalf && next.Length == |currentData| && k + m <= |currentData|
    modifies next
    ensures |records| == mHalf
    ensures forall j :: 0 <= j < |records| ==> records[j] == ButterflyData(s, k + j, k + j + mHalf, Twiddle(trig, j, m), j, m)
    ensures forall j :: 0 <= j < mHalf ==>
      && next[k + j] == Add(currentData[k + j], Mul(Twiddle(trig, j, m), currentData[k + j + mHalf]))
      && next[k + j + mHalf] == Sub(currentData[k + j], Mul(Twiddle(trig, j, m), currentData[k + j + mHalf]))
    ensures forall p :: 0 <= p < next.Length && !(k <= p < k + m) ==> next[p] == old(next[p])
  {
    records := [];
    for j := 0 to mHalf
      invariant |records| == j
      invariant forall t :: 0 <= t < j ==> records[t] == ButterflyData(s, k + t, k + t + mHalf, Twiddle(trig, t, m), t, m)
      invariant forall t :: 0 <= t < j ==>
        && next[k + t] == Add(currentData[k + t], Mul(Twiddle(trig, t, m), currentData[k + t + mHalf]))
        && next[k + t + mHalf] == Sub(currentData[k + t], Mul(Twiddle(trig, t, m), currentData[k + t + mHalf]))
      invariant forall p :: 0 <= p < next.Length && !(k <= p < k + m) ==> next[p] == old(next[p])
    {
      var twiddle := Twiddle(trig, j, m);
      var idxA := k + j;
      var idxB := k + j + mHalf;
      var a := currentData[idxA];
      var b := currentData[idxB];
      var twiddleB := Mul(twiddle, b);
      next[idxA] := Add(a, twiddleB);
      next[idxB] := Sub(a, twiddleB);
      records := records + [ButterflyData(s, idxA, idxB, twiddle, j, m)];
    }
  }

  /**
   * Appending the records of block `blk`, in order of offset, to the records
   * of the blocks before it gives the stage's butterflies up to k + m.
   */
  lemma {:induction false} AppendBlock(trig: Trig, s: nat, m: nat, mHalf: nat, blk: nat, k: nat,
                    done: seq<ButterflyData>, records: seq<ButterflyData>)
    requires s >= 1 && m == Pow2(s) && m == 2 * mHalf && k == blk * m
    requires 2 * |done| == k && |records| == mHalf
    requires done == StageButterflies(trig, s, k)
    requires forall j :: 0 <= j < |records| ==> records[j] == ButterflyData(s, k + j, k + j + mHalf, Twiddle(trig, j, m), j, m)
    ensures done + records == StageButterflies(trig, s, k + m)
  {
    var all := StageButterflies(trig, s, k + m);
    assert |done| == blk * mHalf;
    forall i | 0 <= i < |all|
      ensures (done + records)[i] == all[i]
    {
      if i >= |done| {
        var j := i - |done|;
        assert (done + records)[i] == records[j];
        BlockRecord(trig, s, m, blk, k, i, j);
      }
    }
  }

  /** A block written by `ButterflyBlock` holds the stage values of its positions. */
  lemma {:induction false} BlockOutput(trig: Trig, cur: seq<ComplexNumber>, s: nat, m: nat, mHalf: nat, blk: nat, k: nat,
                    out: seq<ComplexNumber>)
    requires s >= 1 && m == Pow2(s) && m == 2 * mHalf && |cur| % m == 0 && |out| == |cur|
    requires k == blk * m && k + m <= |cur|
    requires forall j :: 0 <= j < mHalf ==>
      && out[k + j] == Add(cur[k + j], Mul(Twiddle(trig, j, m), cur[k + j + mHalf]))
      && out[k + j + mHalf] == Sub(cur[k + j], Mul(Twiddle(trig, j, m), cur[k + j + mHalf]))
    ensures forall p :: k <= p < k + m ==> out[p] == StageValue(trig, cur, s, p)
  {
    forall p | k <= p < k + m
      ensures out[p] == StageValue(trig, cur, s, p)
    {
      if p < k + mHalf {
        var j := p - k;
        BlockStep(trig, cur, s, m, mHalf, blk, k, j);
        assert out[k + j] == Add(cur[k + j], Mul(Twiddle(trig, j, m), cur[k + j + mHalf]));
      } else {
        var j := p - k - mHalf;
        BlockStep(trig, cur, s, m, mHalf, blk, k, j);
        assert out[k + j + mHalf] == Sub(cur[k + j], Mul(Twiddle(trig, j, m), cur[k + j + mHalf]));
      }
    }
  }

  /**
   * `getFFTStages(x)` for `x` of length N == 2^bits: the bit-reversed
   * buffer, the bits + 1 stage snapshots (snapshot 0 is the bit-reversed
   * buffer, snapshot s is stage s applied to snapshot s - 1) and the bits
   * groups of N / 2 butterfly records.
   */
  method GetFFTStages(trig: Trig, x: seq<ComplexNumber>)
    returns (reordered: seq<ComplexNumber>, stages: seq<seq<ComplexNumber>>, butterflies: seq<seq<ButterflyData>>)
    requires IsPowerOfTwo(|x|)
    ensures |reordered| == |x|
    ensures forall n :: 0 <= n < |x| ==> reordered[ReversedBits(n, Log2(|x|))] == x[n]
    ensures multiset(reordered) == multiset(x)
    ensures |stages| == Log2(|x|) + 1 && stages[0] == reordered
    ensures forall s :: 0 <= s < |stages| ==> |stages[s]| == |x|
    ensures forall s :: 1 <= s < |stages| ==> |x| % Pow2(s) == 0 && stages[s] == StageOutput(trig, stages[s - 1], s)
    ensures |butterflies| == Log2(|x|)
    ensures forall s :: 1 <= s <= |butterflies| ==> butterflies[s - 1] == StageButterflies(trig, s, |x|)
  {
    var N := |x|;
    var bits := Log2(N);
    reordered := BitReversal(x, bits);
    var currentData := reordered;
    stages := [currentData];
    butterflies := [];
    for s := 1 to bits + 1
      invariant |stages| == s && |butterflies| == s - 1
      invariant stages[0] == reordered && currentData == stages[s - 1]
      invariant forall t :: 0 <= t < s ==> |stages[t]| == N
      invariant forall t :: 1 <= t < s ==> N % Pow2(t) == 0
      invariant forall t :: 1 <= t < s ==> stages[t] == StageOutput(trig, stages[t - 1], t)
      invariant forall t :: 1 <= t < s ==> butterflies[t - 1] == StageButterflies(trig, t, N)
    {
      assert N % Pow2(s) == 0 by {
        Pow2Divides(s, bits);
      }
      var nextData, stageButterflies := ButterflyStage(trig, currentData, s);
      ghost var previous := stages;
      stages := stages + [nextData];
      forall t | 1 <= t < s + 1
        ensures stages[t] == StageOutput(trig, stages[t - 1], t)
      {
        if t < s {
          assert stages[t] == previous[t] && stages[t - 1] == previous[t - 1];
        }
      }
      currentData := nextData;
      butterflies := butterflies + [stageButterflies];
    }
  }

  /**
   * The bit-reversal step of `getFFTStages`: `reordered[bitReverse(n)] =
   * copy(x[n])` for every n. Every slot is written exactly once, so the
   * buffer is x read through the bit-reversal permutation.
   */
  method BitReversal(x: seq<ComplexNumber>, bits: nat) returns (reordered: seq<ComplexNumber>)
    requires |x| == Pow2(bits)
    ensures |reordered| == |x|
    ensures forall n :: 0 <= n < |x| ==> reordered[ReversedBits(n, bits)] == x[n]
    ensures forall r :: 0 <= r < |x| ==> reordered[r] == x[ReversedBits(r, bits)]
    ensures multiset(reordered) == multiset(x)
  {
    var N := |x|;
    var buffer := new ComplexNumber[N];
    for n := 0 to N
      invariant forall q :: 0 <= q < n ==> buffer[ReversedBits(q, bits)] == x[q]
    {
      var r := BitReverse(n, bits);
      forall q | 0 <= q < n
        ensures ReversedBits(q, bits) != r
      {
        ReversedBitsInjective(q, n, bits);
      }
      buffer[r] := Copy(x[n]);
    }
    reordered := buffer[..];
    forall r | 0 <= r < N
      ensures reordered[r] == x[ReversedBits(r, bits)]
    {
      ReversedBitsInvolution(r, bits);
    }
    var perm := seq(N, r requires 0 <= r < N => ReversedBits(r, bits));
    forall i, j | 0 <= i < j < N
      ensures perm[i] != perm[j]
    {
      ReversedBitsInjective(i, j, bits);
    }
    ReindexPreservesMultiset(reordered, x, perm);
  }

  /**
   * Groups of N / 2 records each hold (N / 2) times the number of groups
   * records in all; with log2 N groups this is the FFT multiplication count.
   * The twiddle fields of the records are described by
   * `FftIndex.ButterflyShape`.
   */
  lemma {:induction false} ButterflyTotal(n: nat, groups: seq<seq<ButterflyData>>)
    requires forall t :: 0 <= t < |groups| ==> |groups[t]| == n / 2
    ensures TotalCount(groups) == (n / 2) * |groups|
  {
    if |groups| > 0 {
      ButterflyTotal(n, groups[..|groups| - 1]);
      assert groups[..|groups| - 1] + [groups[|groups| - 1]] == groups;
    }
  }

  /** The number of records in a list of groups. */
  function TotalCount(groups: seq<seq<ButterflyData>>): nat {
    if groups == [] then 0 else TotalCount(groups[..|groups| - 1]) + |groups[|groups| - 1]|
  }

  // ---------------------------------------------------------------------
  // The direct transform

  /** x[0] W_N^0 + ... + x[n-1] W_N^(k(n-1)), summed left to right from 0. */
  function DftPartialSum(trig: Trig, x: seq<ComplexNumber>, k: int, n: nat): ComplexNumber
    requires n <= |x|
  {
    if n == 0 then From(0.0, 0.0)
    else Add(DftPartialSum(trig, x, k, n - 1), Mul(x[n - 1], Twiddle(trig, k * (n - 1), |x|)))
  }

  /** Bin k of the spectrum: X[k] = sum over n of x[n] W_N^(kn). */
  function DftBin(trig: Trig, x: seq<ComplexNumber>, k: int): ComplexNumber {
    DftPartialSum(trig, x, k, |x|)
  }

  /** `getDFT(x)`: for each bin k, accumulate x[n] W_N^(kn) over n. */
  method GetDFT(trig: Trig, x: seq<ComplexNumber>) returns (spectrum: seq<ComplexNumber>)
    ensures |spectrum| == |x|
    ensures forall k :: 0 <= k < |x| ==> spectrum[k] == DftBin(trig, x, k)
  {
    var N := |x|;
    var bins := new ComplexNumber[N];
    for k := 0 to N
      invariant forall q :: 0 <= q < k ==> bins[q] == DftBin(trig, x, q)
    {
      var sum := From(0.0, 0.0);
      for n := 0 to N
        invariant sum == DftPartialSum(trig, x, k, n)
      {
        var w := Twiddle(trig, k * n, N);
        sum := Add(sum, Mul(x[n], w));
      }
      bins[k] := sum;
    }
    spectrum := bins[..];
  }

  /**
   * The spectrum of a unit impulse is 1 in every bin, provided cos 0 == 1 and
   * sin 0 == 0: only the n == 0 term, x[0] W^0, is non-zero.
   */
  lemma DftOfImpulse(trig: Trig, x: seq<ComplexNumber>, k: int)
    requires trig.cos(0.0) == 1.0 && trig.sin(0.0) == 0.0
    requires |x| >= 1 && x[0] == From(1.0, 0.0)
    requires forall n :: 1 <= n < |x| ==> x[n] == From(0.0, 0.0)
    ensures DftBin(trig, x, k) == From(1.0, 0.0)
  {
    ImpulsePartialSum(trig, x, k, |x|);
  }

  lemma {:induction false} ImpulsePartialSum(trig: Trig, x: seq<ComplexNumber>, k: int, n: nat)
    requires trig.cos(0.0) == 1.0 && trig.sin(0.0) == 0.0
    requires 1 <= n <= |x| && x[0] == From(1.0, 0.0)
    requires forall q :: 1 <= q < |x| ==> x[q] == From(0.0, 0.0)
    ensures DftPartialSum(trig, x, k, n) == From(1.0, 0.0)
  {
    if n == 1 {
      ImpulseFirstTerm(trig, x, k);
    } else {
      ImpulsePartialSum(trig, x, k, n - 1);
      ZeroSampleAdds(trig, x, k, n);
    }
  }

  /** A zero sample adds nothing to the running sum. */
  lemma ZeroSampleAdds(trig: Trig, x: seq<ComplexNumber>, k: int, n: nat)
    requires 1 <= n <= |x| && x[n - 1] == From(0.0, 0.0)
    ensures DftPartialSum(trig, x, k, n) == DftPartialSum(trig, x, k, n - 1)
  {
    MulZero(Twiddle(trig, k * (n - 1), |x|));
  }

  /** The first term of an impulse's sum is x[0] W^0 == 1. */
  lemma {:induction false} ImpulseFirstTerm(trig: Trig, x: seq<ComplexNumber>, k: int)
    requires trig.cos(0.0) == 1.0 && trig.sin(0.0) == 0.0
    requires 1 <= |x| && x[0] == From(1.0, 0.0)
    ensures DftPartialSum(trig, x, k, 1) == From(1.0, 0.0)
  {
    assert k * 0 == 0;
    TwiddleZero(trig, |x|);
  }

  /**
   * Bin 0 is the plain sum of the samples, provided cos 0 == 1 and
   * sin 0 == 0 (every twiddle of bin 0 is W^0).
   */
  lemma {:induction false} DftBinZeroIsSum(trig: Trig, x: seq<ComplexNumber>, n: nat)
    requires trig.cos(0.0) == 1.0 && trig.sin(0.0) == 0.0
    requires n <= |x|
    ensures DftPartialSum(trig, x, 0, n) == SampleSum(x[..n])
  {
    if n > 0 {
      DftBinZeroIsSum(trig, x, n - 1);
      BinZeroTerm(trig, x, n);
      assert x[..n][..n - 1] == x[..n - 1];
      assert SampleSum(x[..n]) == Add(SampleSum(x[..n - 1]), x[n - 1]);
    }
  }

  /** Each term of bin 0 is the sample itself. */
  lemma {:induction false} BinZeroTerm(trig: Trig, x: seq<ComplexNumber>, n: nat)
    requires trig.cos(0.0) == 1.0 && trig.sin(0.0) == 0.0
    requires 1 <= n <= |x|
    ensures DftPartialSum(trig, x, 0, n) == Add(DftPartialSum(trig, x, 0, n - 1), x[n - 1])
  {
    assert 0 * (n - 1) == 0;
    TwiddleZero(trig, |x|);
    MulIdentity(x[n - 1]);
  }

  /** The samples added left to right from 0. */
  function SampleSum(x: seq<ComplexNumber>): ComplexNumber {
    if x == [] then From(0.0, 0.0) else Add(SampleSum(x[..|x| - 1]), x[|x| - 1])
  }

  // ---------------------------------------------------------------------
  // Operation counts

  /**
   * `calculateOpCounts(N)` for N == 2^b: the direct transform does N^2
   * multiplications and N (N - 1) additions, the FFT (N / 2) b and N b.
   * `Math.round` is the identity on these integer values.
   */
  function CalculateOpCounts(N: nat): (counts: OpCountSummary)
    requires IsPowerOfTwo(N)
    ensures counts.fft.adds == 2 * counts.fft.mults
    ensures counts.dft.mults == counts.dft.adds + N
  {
    var logN := Log2(N);
    if logN > 0 then
      Pow2Even(logN);
      MulAssociates(N / 2, logN);
      OpCountSummary(OpCount(N * N, N * (N - 1)), OpCount((N / 2) * logN, N * logN))
    else
      OpCountSummary(OpCount(N * N, N * (N - 1)), OpCount((N / 2) * logN, N * logN))
  }

  /**
   * The FFT does one multiplication per butterfly: its count equals the
   * number of records `getFFTStages` returns, and it does two additions
   * per multiplication.
   */
  lemma {:induction false} FftCountsMatchButterflies(trig: Trig, x: seq<ComplexNumber>, butterflies: seq<seq<ButterflyData>>)
    requires IsPowerOfTwo(|x|) && |butterflies| == Log2(|x|)
    requires forall s :: 1 <= s <= |butterflies| ==> butterflies[s - 1] == StageButterflies(trig, s, |x|)
    ensures TotalCount(butterflies) == CalculateOpCounts(|x|).fft.mults
    ensures CalculateOpCounts(|x|).fft.adds == 2 * CalculateOpCounts(|x|).fft.mults
  {
    var N := |x|;
    forall t | 0 <= t < |butterflies|
      ensures |butterflies[t]| == N / 2
    {
      assert butterflies[(t + 1) - 1] == StageButterflies(trig, t + 1, N);
    }
    ButterflyTotal(N, butterflies);
    if Log2(N) > 0 {
      Pow2Even(Log2(N));
      assert N == 2 * (N / 2);
      MulAssociates(N / 2, Log2(N));
    }
  }

  lemma MulAssociates(h: int, b: int)
    ensures (2 * h) * b == 2 * (h * b)
  {
  }

  /** The FFT never does more multiplications or additions than the direct transform. */
  lemma FftCheaperThanDft(N: nat)
    requires IsPowerOfTwo(N)
    ensures CalculateOpCounts(N).fft.mults <= CalculateOpCounts(N).dft.mults
    ensures CalculateOpCounts(N).fft.adds <= CalculateOpCounts(N).dft.adds
  {
    Log2Below(N);
    MulMonotone(Log2(N), N - 1, N);
    MulMonotone(N / 2, N, Log2(N));
    assert N * Log2(N) == Log2(N) * N;
    assert (N - 1) * N == N * (N - 1);
  }

  /** The counts for N == 8 and N == 16. */
  lemma OpCountExamples()
    ensures CalculateOpCounts(8) == OpCountSummary(OpCount(64, 56), OpCount(12, 24))
    ensures CalculateOpCounts(16) == OpCountSummary(OpCount(256, 240), OpCount(32, 64))
  {
    Log2OfPow2(3);
    Log2OfPow2(4);
    assert Pow2(3) == 8 && Pow2(4) == 16;
  }
}
