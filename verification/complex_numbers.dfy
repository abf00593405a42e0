/**
 Complex numbers over exact reals, with the operations the Mandelbrot
 recurrence `z := z*z + c` needs and the escape test `abs(z) >= 2` stated
 without a square root.
 */
module ComplexNumbers {

  /** A complex number `re + im*1j`. */
  datatype Complex = Complex(re: real, im: real)

  /** The origin, Python's `zn = 0` before the first iteration. */
  const Zero: Complex := Complex(0.0, 0.0)

  function Add(a: Complex, b: Complex): Complex
  {
    Complex(a.re + b.re, a.im + b.im)
  }

  function Mul(a: Complex, b: Complex): Complex
  {
    Complex(a.re * b.re - a.im * b.im, a.re * b.im + a.im * b.re)
  }

  /** The squared modulus `|z|^2`; `abs(z)` is its non-negative square root. */
  function NormSq(z: Complex): (r: real)
    ensures r >= 0.0
  {
    z.re * z.re + z.im * z.im
  }

  /** One step of the Mandelbrot recurrence, `zn**2 + c`. */
  function Step(z: Complex, c: Complex): Complex
  {
    Add(Mul(z, z), c)
  }

  /** The escape test `abs(z) >= 2`, compared on the squared modulus. */
  predicate Escaped(z: Complex)
  {
    NormSq(z) >= 4.0
  }

  /** `a` is a non-negative square root of `m`, as `abs` computes one. */
  ghost predicate IsRoot(a: real, m: real)
  {
    a >= 0.0 && a * a == m
  }

  /**
   Comparing the modulus with 2 and comparing the squared modulus with 4
   agree: whatever non-negative root of `|z|^2` is taken as `abs(z)`,
   it is at least 2 exactly when `z` is `Escaped`.
   */
  lemma AbsAtLeastTwoIffEscaped(z: Complex, a: real)
    requires IsRoot(a, NormSq(z))
    ensures a >= 2.0 <==> Escaped(z)
  {
    if a >= 2.0 {
      assert a * a >= 2.0 * a >= 4.0;
    } else {
      assert a * a <= 2.0 * a < 4.0;
    }
  }
}
