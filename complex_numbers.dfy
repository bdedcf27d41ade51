/** Complex numbers as pairs of reals: the values of impedance and admittance. */
module ComplexNumbers {

  datatype Complex = Complex(re: real, im: real)

  const Zero: Complex := Complex(0.0, 0.0)
  const One: Complex := Complex(1.0, 0.0)

  /** Complex product. */
  function Mul(a: Complex, b: Complex): Complex {
    Complex(a.re * b.re - a.im * b.im, a.re * b.im + a.im * b.re)
  }

  /** A number on the imaginary axis, as every reactance is. */
  predicate IsImaginary(z: Complex) {
    z.re == 0.0
  }

  /** The reciprocal 1 / z of a non-zero imaginary z: again imaginary, and the inverse of z
      under the complex product. */
  function ImaginaryReciprocal(z: Complex): (r: Complex)
    requires IsImaginary(z) && z != Zero
    ensures IsImaginary(r)
    ensures Mul(z, r) == One
  {
    Complex(0.0, -1.0 / z.im)
  }

  /** The inverse is unique: any w with z·w = 1 is the reciprocal. */
  lemma ImaginaryReciprocalUnique(z: Complex, w: Complex)
    requires IsImaginary(z) && z != Zero
    requires Mul(z, w) == One
    ensures w == ImaginaryReciprocal(z)
  {
    assert z.im * w.re == 0.0;
    assert -(z.im * w.im) == 1.0;
    assert w.im == -1.0 / z.im;
  }
}
