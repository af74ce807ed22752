/**
 * The index arithmetic of the iterative radix-2 decimation-in-time FFT
 * (utils/fft.ts): the bit-reversal permutation, and for stage s (span
 * m = 2^s, half-span mHalf = m / 2) the butterfly records in emission order
 * and the buffer the stage produces. These are the reference definitions the
 * methods of module Fft are proved against.
 */
module FftIndex {
  import opened Types
  import opened Arith
  import opened Blocks
  import opened ComplexMath

  // ---------------------------------------------------------------------
  // Bit reversal

  /**
   * The low `bits` bits of `n`, reversed: the lowest bit of `n` becomes
   * bit `bits - 1` of the result.
   */
  function ReversedBits(n: nat, bits: nat): (r: nat)
    ensures r < Pow2(bits)
  {
    if bits == 0 then 0 else (n % 2) * Pow2(bits - 1) + ReversedBits(n / 2, bits - 1)
  }

  /**
   * Bit i of the reversal is bit `bits - 1 - i` of `n`: the reversal read
   * one bit at a time.
   */
  lemma {:induction false} ReversedBitsBit(n: nat, bits: nat, i: nat)
    requires i < bits
    ensures (ReversedBits(n, bits) / Pow2(i)) % 2 == (n / Pow2(bits - 1 - i)) % 2
  {
    var r := ReversedBits(n, bits);
    var rest := ReversedBits(n / 2, bits - 1);
    var bit := n % 2;
    assert r == bit * Pow2(bits - 1) + rest;
    if i == bits - 1 {
      assert r / Pow2(i) == bit by {
        DivModUnique(r, Pow2(i), bit, rest);
      }
      assert n / Pow2(bits - 1 - i) == n;
    } else {
      var e := bits - 1 - i;
      assert (r / Pow2(i)) % 2 == (rest / Pow2(i)) % 2 by {
        Pow2Add(e, i);
        Pow2Even(e);
        ShiftedParity(r, bit, Pow2(e), Pow2(i), rest);
      }
      assert (rest / Pow2(i)) % 2 == ((n / 2) / Pow2(e - 1)) % 2 by {
        ReversedBitsBit(n / 2, bits - 1, i);
      }
      assert (n / 2) / Pow2(e - 1) == n / Pow2(e) by {
        HalveThenDivide(n, Pow2(e - 1));
      }
    }
  }

  /** Dropping the low bits of `bit * E * P + rest`, with E even, keeps the parity of `rest / P`. */
  lemma ShiftedParity(r: int, bit: nat, E: nat, P: nat, rest: nat)
    requires P >= 1 && E % 2 == 0 && r == bit * (E * P) + rest
    ensures (r / P) % 2 == (rest / P) % 2
  {
    var high := bit * E;
    assert r == high * P + rest;
    DivAddMultiple(high, P, rest);
    assert high == (bit * (E / 2)) * 2;
    DivNonNegative(rest, P);
    DivAddMultiple(bit * (E / 2), 2, rest / P);
  }

  /**
   * Reversing `b + 1` bits moves the top bit of `n` to the bottom:
   * the reversal is twice the reversal of the low `b` bits plus the top bit.
   */
  lemma {:induction false} ReversedBitsTop(n: nat, b: nat)
    requires n < Pow2(b + 1)
    ensures ReversedBits(n, b + 1) == 2 * ReversedBits(n % Pow2(b), b) + n / Pow2(b)
  {
    if b == 0 {
      assert n < 2;
    } else {
      var c := b - 1;
      var P := Pow2(c);
      var bit := n % 2;
      var inner := ReversedBits((n / 2) % P, c);
      assert Pow2(b) == 2 * P;
      assert ReversedBits(n % Pow2(b), b) == bit * P + inner by {
        HalveThenDivide(n, P);
      }
      assert ReversedBits(n / 2, b) == 2 * inner + n / Pow2(b) by {
        ReversedBitsTop(n / 2, c);
        HalveThenDivide(n, P);
      }
      assert ReversedBits(n, b + 1) == bit * Pow2(b) + ReversedBits(n / 2, b);
      TopBitStep(bit, P, inner, ReversedBits(n / 2, b), ReversedBits(n % Pow2(b), b),
        n / Pow2(b), ReversedBits(n, b + 1));
    }
  }

  lemma TopBitStep(bit: int, P: int, inner: int, x: int, y: int, q: int, z: int)
    requires y == bit * P + inner && x == 2 * inner + q && z == bit * (2 * P) + x
    ensures z == 2 * y + q
  {
    assert bit * (2 * P) == 2 * (bit * P);
  }

  /** Bit reversal is an involution on `[0, 2^bits)`. */
  lemma {:induction false} ReversedBitsInvolution(n: nat, bits: nat)
    requires n < Pow2(bits)
    ensures ReversedBits(ReversedBits(n, bits), bits) == n
  {
    if bits > 0 {
      var c := bits - 1;
      var low := ReversedBits(n / 2, c);
      var r := ReversedBits(n, bits);
      assert r == (n % 2) * Pow2(c) + low;
      DivModUnique(r, Pow2(c), n % 2, low);
      ReversedBitsTop(r, c);
      ReversedBitsInvolution(n / 2, c);
    }
  }

  /** Hence it is one-to-one on `[0, 2^bits)`. */
  lemma {:induction false} ReversedBitsInjective(p: nat, q: nat, bits: nat)
    requires p < Pow2(bits) && q < Pow2(bits)
    ensures ReversedBits(p, bits) == ReversedBits(q, bits) <==> p == q
  {
    ReversedBitsInvolution(p, bits);
    ReversedBitsInvolution(q, bits);
  }

  /** The 3-bit reversal table for the upper half of an 8-sample buffer. */
  lemma ReversedBitsTable3()
    ensures ReversedBits(4, 3) == 1 && ReversedBits(5, 3) == 5
    ensures ReversedBits(6, 3) == 3 && ReversedBits(7, 3) == 7
  {
  }

  // ---------------------------------------------------------------------
  // Butterflies of one stage

  /** The i-th butterfly of stage s, in block-major, offset-minor order. */
  function Butterfly(trig: Trig, s: nat, i: nat): ButterflyData
    requires s >= 1
  {
    var m := Pow2(s);
    var mHalf := m / 2;
    var j := i % mHalf;
    var a := (i / mHalf) * m + j;
    ButterflyData(s, a, a + mHalf, Twiddle(trig, j, m), j, m)
  }

  /** The butterflies of stage s over a buffer of `n` samples. */
  function StageButterflies(trig: Trig, s: nat, n: nat): (group: seq<ButterflyData>)
    requires s >= 1
    ensures |group| == n / 2
    ensures forall i :: 0 <= i < |group| ==> group[i] == Butterfly(trig, s, i)
  {
    seq(n / 2, i requires 0 <= i => Butterfly(trig, s, i))
  }

  /** The index of the butterfly of stage s that writes position p. */
  function ButterflyOf(s: nat, p: nat): nat
    requires s >= 1
  {
    Owner(p, Pow2(s) / 2)
  }

  /** Record i of stage s in the terms of module Blocks, with h == 2^(s-1). */
  lemma {:induction false} ButterflyInBlocks(trig: Trig, s: nat, i: nat)
    requires s >= 1
    ensures var h := Pow2(s) / 2; var r := Butterfly(trig, s, i);
      && h >= 1 && Pow2(s) == 2 * h
      && r.indexA == OperandA(i, h) && r.indexB == OperandA(i, h) + h
      && r.twiddleK == i % h
  {
    var m := Pow2(s);
    var h := m / 2;
    assert m == 2 * h && h >= 1 by {
      Pow2Even(s);
    }
    var r := Butterfly(trig, s, i);
    assert r.indexA == (i / h) * m + i % h && r.indexB == r.indexA + h;
  }

  /**
   * The shape of a butterfly record: the i-th record of stage s over a
   * buffer of `n` samples (n a multiple of 2^s) has operands
   * `indexA < indexB == indexA + mHalf < n`, offset `twiddleK == i % mHalf`
   * within its block of span `twiddleN == m`, and twiddle W_m^twiddleK.
   */
  lemma {:induction false} ButterflyShape(trig: Trig, s: nat, n: nat, i: nat)
    requires s >= 1 && n % Pow2(s) == 0 && i < n / 2
    ensures var r := Butterfly(trig, s, i);
      && r.stage == s
      && r.twiddleN == Pow2(s)
      && r.twiddleK == i % (Pow2(s) / 2) < Pow2(s) / 2
      && r.indexA == (i / (Pow2(s) / 2)) * Pow2(s) + i % (Pow2(s) / 2)
      && r.indexA % Pow2(s) == r.twiddleK
      && 0 <= r.indexA < r.indexB == r.indexA + Pow2(s) / 2 < n
      && r.twiddle == Twiddle(trig, r.twiddleK, r.twiddleN)
  {
    ButterflyInBlocks(trig, s, i);
    OperandsInRange(n, Pow2(s) / 2, i);
  }

  /**
   * The operands of a stage partition the buffer: every position p < n is
   * operand A or operand B of butterfly `ButterflyOf(s, p)`, and of no
   * other butterfly of the stage.
   */
  lemma {:induction false} StagePartition(trig: Trig, s: nat, n: nat, p: nat)
    requires s >= 1 && n % Pow2(s) == 0 && p < n
    ensures ButterflyOf(s, p) < n / 2
    ensures var r := Butterfly(trig, s, ButterflyOf(s, p));
      r.indexA == p || r.indexB == p
    ensures forall i {:trigger Butterfly(trig, s, i)} :: 0 <= i < n / 2 ==>
      (Butterfly(trig, s, i).indexA == p || Butterfly(trig, s, i).indexB == p) ==>
      i == ButterflyOf(s, p)
  {
    var h := Pow2(s) / 2;
    ButterflyInBlocks(trig, s, ButterflyOf(s, p));
    OwnerInRange(n, h, p);
    forall i | 0 <= i < n / 2 && (Butterfly(trig, s, i).indexA == p || Butterfly(trig, s, i).indexB == p)
      ensures i == ButterflyOf(s, p)
    {
      ButterflyInBlocks(trig, s, i);
      OwnerUnique(i, h, p);
    }
  }

  /**
   * Block `blk` of stage s starts at `blk * m`; its butterfly at offset j is
   * record `blk * mHalf + j`, with operands `blk * m + j` and
   * `blk * m + j + mHalf`, both written by that record.
   */
  lemma {:induction false} BlockButterfly(trig: Trig, s: nat, blk: nat, j: nat)
    requires s >= 1 && j < Pow2(s) / 2
    ensures var m := Pow2(s); var mHalf := m / 2; var i := blk * mHalf + j;
      && Butterfly(trig, s, i) == ButterflyData(s, blk * m + j, blk * m + j + mHalf, Twiddle(trig, j, m), j, m)
      && ButterflyOf(s, blk * m + j) == i
      && ButterflyOf(s, blk * m + j + mHalf) == i
  {
    var h := Pow2(s) / 2;
    ButterflyInBlocks(trig, s, blk * h + j);
    BlockEntry(blk, j, h);
  }

  // ---------------------------------------------------------------------
  // The buffer a stage produces

  /**
   * Position p of the buffer after stage s: the butterfly that owns p
   * combines its operands A and B of the previous buffer into
   * A + W B (at A) or A - W B (at B).
   */
  function StageValue(trig: Trig, cur: seq<ComplexNumber>, s: nat, p: nat): ComplexNumber
    requires s >= 1 && |cur| % Pow2(s) == 0 && p < |cur|
  {
    OwnerOperands(trig, s, |cur|, p);
    var r := Butterfly(trig, s, ButterflyOf(s, p));
    var product := Mul(r.twiddle, cur[r.indexB]);
    if p == r.indexA then Add(cur[r.indexA], product) else Sub(cur[r.indexA], product)
  }

  /** Both operands of the butterfly that owns p lie in the buffer. */
  lemma {:induction false} OwnerOperands(trig: Trig, s: nat, n: nat, p: nat)
    requires s >= 1 && n % Pow2(s) == 0 && p < n
    ensures var r := Butterfly(trig, s, ButterflyOf(s, p));
      0 <= r.indexA < n && 0 <= r.indexB < n
  {
    StagePartition(trig, s, n, p);
    ButterflyShape(trig, s, n, ButterflyOf(s, p));
  }

  /** The whole buffer after stage s, built from the buffer `cur` before it. */
  function StageOutput(trig: Trig, cur: seq<ComplexNumber>, s: nat): (next: seq<ComplexNumber>)
    requires s >= 1 && |cur| % Pow2(s) == 0
    ensures |next| == |cur|
  {
    seq(|cur|, p requires 0 <= p < |cur| => StageValue(trig, cur, s, p))
  }

  /** Butterfly i == blk * mHalf + j of stage s is the one at offset j of the block starting at k == blk * m. */
  lemma {:induction false} BlockRecord(trig: Trig, s: nat, m: nat, blk: nat, k: nat, i: nat, j: nat)
    requires s >= 1 && m == Pow2(s) && j < m / 2
    requires k == blk * m && i == blk * (m / 2) + j
    ensures Butterfly(trig, s, i) == ButterflyData(s, k + j, k + j + m / 2, Twiddle(trig, j, m), j, m)
  {
    BlockButterfly(trig, s, blk, j);
  }

  /**
   * The same butterfly writes `a + W b` at k + j and `a - W b` at
   * k + j + mHalf, with a, b the previous values there and W = W_m^j.
   */
  lemma {:induction false} BlockStep(trig: Trig, cur: seq<ComplexNumber>, s: nat, m: nat, mHalf: nat, blk: nat, k: nat, j: nat)
    requires s >= 1 && m == Pow2(s) && m == 2 * mHalf && |cur| % m == 0 && j < mHalf
    requires k == blk * m && k + m <= |cur|
    ensures StageValue(trig, cur, s, k + j) == Add(cur[k + j], Mul(Twiddle(trig, j, m), cur[k + j + mHalf]))
    ensures StageValue(trig, cur, s, k + j + mHalf) == Sub(cur[k + j], Mul(Twiddle(trig, j, m), cur[k + j + mHalf]))
  {
    var i := blk * mHalf + j;
    BlockButterfly(trig, s, blk, j);
    var r := Butterfly(trig, s, i);
    assert r.indexA == k + j && r.indexB == k + j + mHalf && r.twiddle == Twiddle(trig, j, m);
    assert ButterflyOf(s, k + j) == i && ButterflyOf(s, k + j + mHalf) == i;
  }

  /**
   * Every butterfly record of stage s describes what the stage does to its
   * two operands: A' == A + W B and B' == A - W B, with W the record's
   * twiddle and A, B read from the previous buffer.
   */
  lemma {:induction false} ButterflyAlgebra(trig: Trig, cur: seq<ComplexNumber>, s: nat, i: nat)
    requires s >= 1 && |cur| % Pow2(s) == 0 && i < |cur| / 2
    ensures var r := Butterfly(trig, s, i); var next := StageOutput(trig, cur, s);
      && 0 <= r.indexA < r.indexB < |cur|
      && next[r.indexA] == Add(cur[r.indexA], Mul(r.twiddle, cur[r.indexB]))
      && next[r.indexB] == Sub(cur[r.indexA], Mul(r.twiddle, cur[r.indexB]))
  {
    var r := Butterfly(trig, s, i);
    ButterflyShape(trig, s, |cur|, i);
    StagePartition(trig, s, |cur|, r.indexA);
    StagePartition(trig, s, |cur|, r.indexB);
  }
}
