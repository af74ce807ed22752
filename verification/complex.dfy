/**
 * Complex arithmetic on (re, im) pairs (utils/math.ts). The components are
 * exact reals rather than doubles. `Math.sin` and `Math.cos` are not
 * interpreted: every member that needs them takes a `Trig` value holding the
 * two functions, so nothing proved here depends on what they compute.
 */
module ComplexMath {
  import opened Types

  /** The sine and cosine the transform is evaluated with. */
  datatype Trig = Trig(sin: real -> real, cos: real -> real)

  /** The decimal expansion JavaScript prints for `Math.PI`. */
  const PI: real := 3.141592653589793

  /** `Complex.from(re, im = 0)`: a sample with the given parts. */
  function From(re: real, im: real := 0.0): (r: ComplexNumber)
    ensures r.re == re && r.im == im
  {
    ComplexNumber(re, im)
  }

  function Add(a: ComplexNumber, b: ComplexNumber): (r: ComplexNumber)
    ensures r.re == a.re + b.re && r.im == a.im + b.im
  {
    ComplexNumber(a.re + b.re, a.im + b.im)
  }

  /** Subtraction undoes addition of the same operand. */
  function Sub(a: ComplexNumber, b: ComplexNumber): (r: ComplexNumber)
    ensures Add(r, b) == a
  {
    ComplexNumber(a.re - b.re, a.im - b.im)
  }

  /** Complex multiplication: (a.re b.re - a.im b.im, a.re b.im + a.im b.re). */
  function Mul(a: ComplexNumber, b: ComplexNumber): (r: ComplexNumber)
    ensures r.re == a.re * b.re - a.im * b.im
    ensures r.im == a.re * b.im + a.im * b.re
  {
    ComplexNumber(a.re * b.re - a.im * b.im, a.re * b.im + a.im * b.re)
  }

  /** The point of angle `angle` on the unit circle. */
  function Exp(trig: Trig, angle: real): (r: ComplexNumber)
    ensures r.re == trig.cos(angle) && r.im == trig.sin(angle)
  {
    ComplexNumber(trig.cos(angle), trig.sin(angle))
  }

  /**
   * The angle of W_n^k: -2 PI k / n. Its sign is negative for every
   * non-negative k and positive n, the forward-transform convention.
   */
  function TwiddleAngle(k: int, n: int): (angle: real)
    requires n != 0
    ensures k >= 0 && n > 0 ==> angle <= 0.0
    ensures k == 0 ==> angle == 0.0
    ensures k > 0 && n > 0 ==> angle < 0.0
  {
    -2.0 * PI * (k as real) / (n as real)
  }

  /** The twiddle factor W_n^k = exp(-2 PI i k / n). */
  function Twiddle(trig: Trig, k: int, n: int): (w: ComplexNumber)
    requires n != 0
    ensures w == Exp(trig, TwiddleAngle(k, n))
  {
    Exp(trig, TwiddleAngle(k, n))
  }

  /** `Complex.copy`: a value copy. */
  function Copy(a: ComplexNumber): (r: ComplexNumber)
    ensures r.re == a.re && r.im == a.im
  {
    ComplexNumber(a.re, a.im)
  }

  // Algebraic laws of the operations above.

  lemma AddCommutes(a: ComplexNumber, b: ComplexNumber)
    ensures Add(a, b) == Add(b, a)
  {
  }

  lemma SubAfterAdd(a: ComplexNumber, b: ComplexNumber)
    ensures Sub(Add(a, b), b) == a
  {
  }

  lemma MulCommutes(a: ComplexNumber, b: ComplexNumber)
    ensures Mul(a, b) == Mul(b, a)
  {
  }

  lemma MulIdentity(a: ComplexNumber)
    ensures Mul(From(1.0, 0.0), a) == a && Mul(a, From(1.0, 0.0)) == a
  {
  }

  lemma MulZero(a: ComplexNumber)
    ensures Mul(From(0.0, 0.0), a) == From(0.0, 0.0)
  {
  }

  /** The twiddle of exponent 0 is 1 when cos 0 == 1 and sin 0 == 0. */
  lemma TwiddleZero(trig: Trig, n: int)
    requires n != 0 && trig.cos(0.0) == 1.0 && trig.sin(0.0) == 0.0
    ensures Twiddle(trig, 0, n) == From(1.0, 0.0)
  {
  }

  /**
   * W_n^k depends only on the ratio k / n: W_{c n}^{c k} == W_n^k, the
   * identity that lets stage s reuse the twiddles of span 2^s.
   */
  lemma {:induction false} TwiddleScales(trig: Trig, k: int, n: int, c: int)
    requires n != 0 && c != 0
    ensures Twiddle(trig, c * k, c * n) == Twiddle(trig, k, n)
  {
    var ck, cn := (c * k) as real, (c * n) as real;
    assert ck == (c as real) * (k as real);
    assert cn == (c as real) * (n as real);
    assert ck / cn == (k as real) / (n as real);
    calc {
      TwiddleAngle(c * k, c * n);
      -2.0 * PI * ck / cn;
      -2.0 * PI * (ck / cn);
      -2.0 * PI * ((k as real) / (n as real));
      TwiddleAngle(k, n);
    }
  }
}
