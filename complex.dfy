/**
 * Complex numbers over exact reals. They stand for the `num::Complex<f64>`
 * values of the Rust renderer and the built-in `complex` values of the Python
 * scripts; rounding of 64-bit floating point is not modelled.
 */
module ComplexPlane {
  datatype Complex = Complex(re: real, im: real)

  const Zero := Complex(0.0, 0.0)

  function Add(a: Complex, b: Complex): Complex {
    Complex(a.re + b.re, a.im + b.im)
  }

  function Mul(a: Complex, b: Complex): Complex {
    Complex(a.re * b.re - a.im * b.im, a.re * b.im + a.im * b.re)
  }

  /** `z * z`; also stands for `z.pow(2.)`, which `num` evaluates in polar form. */
  function Square(z: Complex): Complex {
    Mul(z, z)
  }

  function Abs(x: real): real {
    if x < 0.0 then -x else x
  }

  /** The Burning Ship fold: both parts replaced by their absolute values. */
  function FoldAbs(z: Complex): Complex {
    Complex(Abs(z.re), Abs(z.im))
  }

  /** `norm_sqr`: the squared modulus; `abs(z) <= 2` is `NormSqr(z) <= 4`. */
  function NormSqr(z: Complex): (r: real)
    ensures r >= 0.0
  {
    z.re * z.re + z.im * z.im
  }
}
