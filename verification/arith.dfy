/**
 * Powers of two, the base-2 logarithm of a power of two, and the facts
 * about Euclidean division that the index arithmetic of the FFT rests on.
 * `Math.pow(2, s)` and `Math.log2(N)` of the source are `Pow2` and `Log2`
 * here; they are only ever applied to powers of two.
 */
module Arith {

  function Pow2(e: nat): (r: nat)
    ensures r >= 1
  {
    if e == 0 then 1 else 2 * Pow2(e - 1)
  }

  /** The floor of the base-2 logarithm; exact on powers of two. */
  function Log2(n: nat): nat
    requires n >= 1
  {
    if n == 1 then 0 else 1 + Log2(n / 2)
  }

  predicate IsPowerOfTwo(n: nat) {
    n >= 1 && Pow2(Log2(n)) == n
  }

  /** `Log2` inverts `Pow2`, so every `Pow2(e)` is a power of two. */
  lemma {:induction false} Log2OfPow2(e: nat)
    ensures Log2(Pow2(e)) == e
    ensures IsPowerOfTwo(Pow2(e))
  {
    if e > 0 {
      Log2OfPow2(e - 1);
      assert Pow2(e) / 2 == Pow2(e - 1);
    }
  }

  lemma {:induction false} Pow2Add(a: nat, b: nat)
    ensures Pow2(a + b) == Pow2(a) * Pow2(b)
  {
    if a > 0 {
      Pow2Add(a - 1, b);
      assert Pow2(a + b) == 2 * Pow2(a - 1 + b);
    }
  }

  /** A smaller power of two divides a larger one. */
  lemma Pow2Divides(a: nat, b: nat)
    requires a <= b
    ensures Pow2(b) % Pow2(a) == 0
    ensures Pow2(b) / Pow2(a) == Pow2(b - a)
  {
    Pow2Add(b - a, a);
    DivModUnique(Pow2(b), Pow2(a), Pow2(b - a), 0);
  }

  /** A power of two above 1 is even. */
  lemma Pow2Even(e: nat)
    requires e >= 1
    ensures Pow2(e) % 2 == 0 && Pow2(e) / 2 == Pow2(e - 1)
  {
  }

  /** The logarithm of a positive number is below the number itself. */
  lemma {:induction false} Log2Below(n: nat)
    requires n >= 1
    ensures Log2(n) < n
  {
    if n > 1 {
      Log2Below(n / 2);
    }
  }

  /** Quotient and remainder are the only pair that decomposes `x`. */
  lemma DivModUnique(x: int, d: int, q: int, r: int)
    requires d > 0 && 0 <= r < d && x == q * d + r
    ensures x / d == q && x % d == r
  {
    var q', r' := x / d, x % d;
    assert x == q' * d + r';
    if q > q' {
      assert (q - q') * d == r' - r;
      MulAtLeast(q - q', d);
      assert false;
    } else if q < q' {
      assert (q' - q) * d == r - r';
      MulAtLeast(q' - q, d);
      assert false;
    }
  }

  lemma MulAtLeast(a: int, d: int)
    requires a >= 1 && d > 0
    ensures a * d >= d
  {
    assert a * d == (a - 1) * d + d;
    MulNonNegative(a - 1, d);
  }

  lemma DivNonNegative(p: nat, d: int)
    requires d >= 1
    ensures p / d >= 0 && p % d >= 0
  {
  }

  lemma MulNonNegative(a: int, b: int)
    requires a >= 0 && b >= 0
    ensures a * b >= 0
  {
  }

  /** Adding a multiple of `d` shifts the quotient and keeps the remainder. */
  lemma DivAddMultiple(a: int, d: int, r: int)
    requires d > 0 && r >= 0
    ensures (a * d + r) / d == a + r / d
    ensures (a * d + r) % d == r % d
  {
    assert r == (r / d) * d + r % d;
    assert a * d + r == (a + r / d) * d + r % d;
    DivModUnique(a * d + r, d, a + r / d, r % d);
  }

  /** Halving then dividing by `k` is dividing by `2k`; the remainders agree. */
  lemma HalveThenDivide(n: nat, k: nat)
    requires k >= 1
    ensures (n / 2) / k == n / (2 * k)
    ensures (n % (2 * k)) % 2 == n % 2
    ensures (n % (2 * k)) / 2 == (n / 2) % k
  {
    var q, r := (n / 2) / k, (n / 2) % k;
    assert n / 2 == q * k + r;
    assert n == q * (2 * k) + (2 * r + n % 2);
    DivModUnique(n, 2 * k, q, 2 * r + n % 2);
    DivModUnique(2 * r + n % 2, 2, r, n % 2);
  }

  /** Below `K * d`, the quotient by `d` is below `K`. */
  lemma DivBelow(x: nat, d: nat, K: nat)
    requires d >= 1 && x < K * d
    ensures x / d < K
  {
  }

  /** A multiple of `d` is its quotient times `d`. */
  lemma ExactQuotient(x: nat, d: nat)
    requires d >= 1 && x % d == 0
    ensures x == (x / d) * d
  {
    assert x == d * (x / d) + x % d;
  }

  lemma MulSucc(a: int, d: int)
    ensures (a + 1) * d == a * d + d
  {
  }

  lemma MulDouble(a: int, h: int)
    ensures a * (2 * h) == 2 * (a * h)
  {
  }

  lemma MulMonotone(a: int, b: int, d: int)
    requires 0 <= a <= b && d >= 0
    ensures a * d <= b * d
  {
    MulNonNegative(b - a, d);
    assert b * d - a * d == (b - a) * d;
  }
}

/**
 * Block arithmetic of one FFT stage with half-span h and span 2 h: the
 * butterfly with index i sits in block i / h at offset i % h, its operands
 * are A(i) == (i / h) * (2 h) + i % h and A(i) + h, and the butterfly that
 * owns position p is O(p) == (p / (2 h)) * h + (p % (2 h)) % h.
 */
module Blocks {
  import opened Arith

  function OperandA(i: nat, h: nat): nat
    requires h >= 1
  {
    (i / h) * (2 * h) + i % h
  }

  function Owner(p: nat, h: nat): nat
    requires h >= 1
  {
    DivNonNegative(p, 2 * h);
    MulNonNegative(p / (2 * h), h);
    (p / (2 * h)) * h + (p % (2 * h)) % h
  }

  /** Butterfly i < n / 2 has both operands below n when 2 h divides n. */
  lemma OperandsInRange(n: nat, h: nat, i: nat)
    requires h >= 1 && n % (2 * h) == 0 && i < n / 2
    ensures OperandA(i, h) + h < n
    ensures OperandA(i, h) % (2 * h) == i % h
    ensures OperandA(i, h) / (2 * h) == i / h
  {
    var K := n / (2 * h);
    assert n == K * (2 * h);
    assert n / 2 == K * h;
    DivBelow(i, h, K);
    MulMonotone(i / h, K - 1, 2 * h);
    assert (K - 1) * (2 * h) == n - 2 * h;
    DivModUnique(OperandA(i, h), 2 * h, i / h, i % h);
  }

  /** The owner of a position below n is a butterfly below n / 2 that has the position as an operand. */
  lemma OwnerInRange(n: nat, h: nat, p: nat)
    requires h >= 1 && n % (2 * h) == 0 && p < n
    ensures Owner(p, h) < n / 2
    ensures OperandA(Owner(p, h), h) == p || OperandA(Owner(p, h), h) + h == p
  {
    OwnerBelow(n, h, p);
    OwnerIsOperand(h, p);
  }

  lemma {:induction false} OwnerBelow(n: nat, h: nat, p: nat)
    requires h >= 1 && n % (2 * h) == 0 && p < n
    ensures Owner(p, h) < n / 2
  {
    var blk, off := p / (2 * h), p % (2 * h);
    var K := n / (2 * h);
    assert blk < K && n / 2 == K * h by {
      Multiples(n, h, K);
      DivBelow(p, 2 * h, K);
    }
    assert Owner(p, h) == blk * h + off % h;
    BlockBelow(blk, K, h, off % h);
  }

  /** Offset `r < h` of block `blk < K` lies below `K * h`. */
  lemma BlockBelow(blk: nat, K: nat, h: nat, r: nat)
    requires blk < K && r < h
    ensures blk * h + r < K * h
  {
    MulMonotone(blk, K - 1, h);
    assert (K - 1) * h == K * h - h;
  }

  lemma OwnerIsOperand(h: nat, p: nat)
    requires h >= 1
    ensures OperandA(Owner(p, h), h) == p || OperandA(Owner(p, h), h) + h == p
  {
    var blk, off := p / (2 * h), p % (2 * h);
    assert Owner(p, h) / h == blk && Owner(p, h) % h == off % h by {
      DivNonNegative(off, h);
      DivNonNegative(p, 2 * h);
      DivModUnique(Owner(p, h), h, blk, off % h);
    }
    assert p == blk * (2 * h) + off;
    if off >= h {
      DivModUnique(off, h, 1, off - h);
    }
  }

  /** A multiple n == K (2 h) of the span has K h butterflies. */
  lemma Multiples(n: nat, h: nat, K: nat)
    requires h >= 1 && n % (2 * h) == 0 && K == n / (2 * h)
    ensures n == K * (2 * h) && n / 2 == K * h
  {
    assert n == K * (2 * h) + n % (2 * h);
    assert K * (2 * h) == 2 * (K * h);
  }

  /** Only the owner has the position as an operand. */
  lemma OwnerUnique(i: nat, h: nat, p: nat)
    requires h >= 1
    requires OperandA(i, h) == p || OperandA(i, h) + h == p
    ensures i == Owner(p, h)
  {
    var j := i % h;
    assert i == (i / h) * h + j;
    if OperandA(i, h) == p {
      DivModUnique(p, 2 * h, i / h, j);
    } else {
      DivModUnique(p, 2 * h, i / h, j + h);
      DivModUnique(j + h, h, 1, j);
    }
  }

  /** Butterfly `blk * h + j` of block blk at offset j < h, and the positions it owns. */
  lemma {:induction false} BlockEntry(blk: nat, j: nat, h: nat)
    requires h >= 1 && j < h
    ensures (blk * h + j) / h == blk && (blk * h + j) % h == j
    ensures OperandA(blk * h + j, h) == blk * (2 * h) + j
    ensures Owner(blk * (2 * h) + j, h) == blk * h + j
    ensures Owner(blk * (2 * h) + j + h, h) == blk * h + j
  {
    DivModUnique(blk * h + j, h, blk, j);
    OwnerInBlock(blk, h, j);
    OwnerInBlock(blk, h, j + h);
    DivModUnique(j, h, 0, j);
    DivModUnique(j + h, h, 1, j);
  }

  /** Position `off < 2 h` of block blk is owned by butterfly `blk * h + off % h`. */
  lemma {:induction false} OwnerInBlock(blk: nat, h: nat, off: nat)
    requires h >= 1 && off < 2 * h
    ensures Owner(blk * (2 * h) + off, h) == blk * h + off % h
  {
    DivModUnique(blk * (2 * h) + off, 2 * h, blk, off);
  }
}
