/**
 * The three escape-time kernels of the Rust renderer, one module per family as
 * in the program. Each is the program's `while` loop over a local point `z` and
 * counter `n`, proved to return the Rust escape count of `EscapeTime`.
 */
module JuliaKernel {
  import opened ComplexPlane
  import opened EscapeTime

  /** The default viewport and the fixed constant c of the Julia set. */
  const UpperLeft := Complex(-1.5, 1.0)
  const LowerRight := Complex(1.5, -1.0)
  const C := Complex(-0.8, 0.156)
  const R: real := 2.0

  /** Iterates z -> z² + C from the pixel itself. */
  method ComputeSuite(iterationsMax: nat, start: Complex) returns (count: nat)
    ensures count == RustCount(StepOf(Julia, C), start, iterationsMax)
  {
    var n: nat := 0;
    var z := start;
    while NormSqr(z) <= R * R && n < iterationsMax
      invariant n <= iterationsMax
      invariant z == Orbit(StepOf(Julia, C), start, n)
      invariant InsideUpTo(StepOf(Julia, C), start, n)
      decreases iterationsMax - n
    {
      z := Add(Mul(z, z), C);
      n := n + 1;
    }
    ExitStepIs(StepOf(Julia, C), start, iterationsMax, n);
    if NormSqr(z) > R * R {
      count := n;
    } else {
      count := 0;
    }
  }
}

module BurningShipKernel {
  import opened ComplexPlane
  import opened EscapeTime

  const UpperLeft := Complex(-2.5, 1.0)
  const LowerRight := Complex(1.0, -1.0)

  /** Iterates z -> (|Re z| + i|Im z|)² + c from 0. */
  method ComputeSuite(iterationsMax: nat, c: Complex) returns (count: nat)
    ensures count == RustCount(StepOf(BurningShip, c), Zero, iterationsMax)
  {
    var z := Zero;
    var n: nat := 0;
    while NormSqr(z) <= 4.0 && n < iterationsMax
      invariant n <= iterationsMax
      invariant z == Orbit(StepOf(BurningShip, c), Zero, n)
      invariant InsideUpTo(StepOf(BurningShip, c), Zero, n)
      decreases iterationsMax - n
    {
      z := FoldAbs(z);
      z := Add(Square(z), c);
      n := n + 1;
    }
    ExitStepIs(StepOf(BurningShip, c), Zero, iterationsMax, n);
    if NormSqr(z) > 4.0 {
      count := n;
    } else {
      count := 0;
    }
  }
}

module MandelbrotKernel {
  import opened ComplexPlane
  import opened EscapeTime

  const UpperLeft := Complex(-2.0, 1.0)
  const LowerRight := Complex(1.0, -1.0)

  /** Iterates z -> z² + c from 0. */
  method ComputeSuite(iterationsMax: nat, c: Complex) returns (count: nat)
    ensures count == RustCount(StepOf(Mandelbrot, c), Zero, iterationsMax)
  {
    var z := Zero;
    var n: nat := 0;
    while NormSqr(z) <= 4.0 && n < iterationsMax
      invariant n <= iterationsMax
      invariant z == Orbit(StepOf(Mandelbrot, c), Zero, n)
      invariant InsideUpTo(StepOf(Mandelbrot, c), Zero, n)
      decreases iterationsMax - n
    {
      z := Add(Square(z), c);
      n := n + 1;
    }
    ExitStepIs(StepOf(Mandelbrot, c), Zero, iterationsMax, n);
    if NormSqr(z) > 4.0 {
      count := n;
    } else {
      count := 0;
    }
  }
}
