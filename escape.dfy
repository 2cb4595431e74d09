/**
 * The escape-time iteration shared by the three fractal families, and the two
 * conventions for reporting it: the Rust kernels (the counter if the final
 * point escaped, else 0) and the Python kernels (0 if the loop hit the cap,
 * else the counter).
 *
 * The iteration is stated for any step map `f`; `StepOf` gives the map of
 * each family. Keeping the map abstract keeps the arithmetic of the
 * recurrence out of the proofs about the loop, which do not depend on it.
 */
module EscapeTime {
  import opened ComplexPlane

  datatype Family = Mandelbrot | Julia | BurningShip

  /** The escape radius is 2 for every family; this is its square. */
  const RadiusSqr: real := 4.0

  predicate Escaped(z: Complex) {
    NormSqr(z) > RadiusSqr
  }

  /** One step of the recurrence z -> g(z) + c of each family. */
  function Step(family: Family, z: Complex, c: Complex): Complex {
    match family
    case BurningShip => Add(Square(FoldAbs(z)), c)
    case _ => Add(Square(z), c)
  }

  function StepOf(family: Family, c: Complex): Complex -> Complex {
    z => Step(family, z, c)
  }

  /** The k-th point of the orbit of `f` that starts at `z0`. */
  function Orbit(f: Complex -> Complex, z0: Complex, k: nat): Complex {
    if k == 0 then z0 else f(Orbit(f, z0, k - 1))
  }

  /** The orbit points 0 .. k-1 all lie inside the disk of radius 2. */
  predicate InsideUpTo(f: Complex -> Complex, z0: Complex, k: nat) {
    k == 0 || (InsideUpTo(f, z0, k - 1) && !Escaped(Orbit(f, z0, k - 1)))
  }

  /**
   * The value of the loop counter when the escape-time loop, entered with
   * counter `n`, stops: it runs while the point is inside the radius and the
   * counter is below the cap.
   */
  function ExitFrom(f: Complex -> Complex, z0: Complex, cap: nat, n: nat): (e: nat)
    requires n <= cap
    ensures n <= e <= cap
    decreases cap - n
  {
    if n < cap && !Escaped(Orbit(f, z0, n)) then ExitFrom(f, z0, cap, n + 1) else n
  }

  function ExitStep(f: Complex -> Complex, z0: Complex, cap: nat): nat {
    ExitFrom(f, z0, cap, 0)
  }

  /** What the Rust kernels return: the counter if the final point escaped, otherwise 0. */
  function RustCount(f: Complex -> Complex, z0: Complex, cap: nat): nat {
    var n := ExitStep(f, z0, cap);
    if Escaped(Orbit(f, z0, n)) then n else 0
  }

  /** What the Python kernels return: 0 if the counter reached the cap, otherwise the counter. */
  function PythonCount(f: Complex -> Complex, z0: Complex, cap: nat): nat {
    var n := ExitStep(f, z0, cap);
    if n == cap then 0 else n
  }

  lemma {:induction false} InsideUpToMeans(f: Complex -> Complex, z0: Complex, k: nat)
    ensures InsideUpTo(f, z0, k) <==> forall j :: 0 <= j < k ==> !Escaped(Orbit(f, z0, j))
  {
    if k > 0 {
      InsideUpToMeans(f, z0, k - 1);
      if InsideUpTo(f, z0, k) {
        forall j | 0 <= j < k
          ensures !Escaped(Orbit(f, z0, j))
        {
          if j < k - 1 {
            assert InsideUpTo(f, z0, k - 1);
          }
        }
      } else {
        assert exists j :: 0 <= j < k && Escaped(Orbit(f, z0, j)) by {
          if InsideUpTo(f, z0, k - 1) {
            assert Escaped(Orbit(f, z0, k - 1));
          } else {
            var j :| 0 <= j < k - 1 && Escaped(Orbit(f, z0, j));
            assert 0 <= j < k;
          }
        }
      }
    }
  }

  lemma {:induction false} ExitFromIsFirstEscape(f: Complex -> Complex, z0: Complex, cap: nat, n: nat)
    requires n <= cap
    requires InsideUpTo(f, z0, n)
    ensures var e := ExitFrom(f, z0, cap, n);
      && InsideUpTo(f, z0, e)
      && (e < cap ==> Escaped(Orbit(f, z0, e)))
    decreases cap - n
  {
    if n < cap && !Escaped(Orbit(f, z0, n)) {
      ExitFromIsFirstEscape(f, z0, cap, n + 1);
    }
  }

  /**
   * The loop stops at the first orbit index whose point lies outside the
   * radius, or at the cap if there is none before it.
   */
  lemma ExitStepIsFirstEscape(f: Complex -> Complex, z0: Complex, cap: nat)
    ensures var e := ExitStep(f, z0, cap);
      && e <= cap
      && InsideUpTo(f, z0, e)
      && (e < cap ==> Escaped(Orbit(f, z0, e)))
  {
    ExitFromIsFirstEscape(f, z0, cap, 0);
  }

  /** The first-escape property determines the exit step: the loop stops at no other counter. */
  lemma ExitStepIs(f: Complex -> Complex, z0: Complex, cap: nat, n: nat)
    requires n <= cap
    requires InsideUpTo(f, z0, n)
    requires n == cap || Escaped(Orbit(f, z0, n))
    ensures ExitStep(f, z0, cap) == n
  {
    ExitStepIsFirstEscape(f, z0, cap);
    var e := ExitStep(f, z0, cap);
    InsideUpToMeans(f, z0, n);
    InsideUpToMeans(f, z0, e);
    assert e < n ==> !Escaped(Orbit(f, z0, e));
    assert n < e ==> !Escaped(Orbit(f, z0, n));
  }

  /**
   * The Rust convention: a nonzero result r never exceeds the cap and is the
   * first step whose point is outside the radius; 0 means the start point was
   * already outside, or no point up to the cap left the disk.
   */
  lemma RustCountIsFirstEscape(f: Complex -> Complex, z0: Complex, cap: nat)
    ensures var r := RustCount(f, z0, cap);
      && r <= cap
      && (r != 0 ==> Escaped(Orbit(f, z0, r)) && InsideUpTo(f, z0, r))
      && (r == 0 <==> Escaped(z0) || InsideUpTo(f, z0, cap + 1))
      && (cap == 0 ==> r == 0)
  {
    ExitStepIsFirstEscape(f, z0, cap);
    if InsideUpTo(f, z0, cap + 1) {
      ExitStepIs(f, z0, cap, cap);
    }
  }

  /**
   * The Python convention: with a cap of at least 1 the result is below the
   * cap; a nonzero result is the first escape step; 0 means the start point
   * was already outside, or no point before the cap left the disk.
   */
  lemma PythonCountIsFirstEscape(f: Complex -> Complex, z0: Complex, cap: nat)
    ensures var r := PythonCount(f, z0, cap);
      && (cap >= 1 ==> r < cap)
      && (cap == 0 ==> r == 0)
      && (r != 0 ==> Escaped(Orbit(f, z0, r)) && InsideUpTo(f, z0, r))
      && (r == 0 <==> Escaped(z0) || InsideUpTo(f, z0, cap))
  {
    ExitStepIsFirstEscape(f, z0, cap);
    if Escaped(z0) {
      ExitStepIs(f, z0, cap, 0);
    }
    if InsideUpTo(f, z0, cap) {
      ExitStepIs(f, z0, cap, cap);
    }
  }

  /**
   * The two conventions differ exactly when the Rust kernel reports the cap:
   * there Python reports 0.
   */
  lemma PythonVersusRust(f: Complex -> Complex, z0: Complex, cap: nat)
    ensures PythonCount(f, z0, cap) == if RustCount(f, z0, cap) == cap then 0 else RustCount(f, z0, cap)
  {
    ExitStepIsFirstEscape(f, z0, cap);
  }

  /** A point that escapes exactly on the last allowed step: Rust reports the cap, Python 0. */
  lemma EscapeOnLastStep(f: Complex -> Complex, z0: Complex, cap: nat)
    requires cap >= 1
    requires InsideUpTo(f, z0, cap) && Escaped(Orbit(f, z0, cap))
    ensures RustCount(f, z0, cap) == cap
    ensures PythonCount(f, z0, cap) == 0
  {
    ExitStepIs(f, z0, cap, cap);
  }

  lemma {:induction false} OriginIsFixed(k: nat)
    ensures Orbit(StepOf(Mandelbrot, Zero), Zero, k) == Zero
  {
    if k > 0 {
      OriginIsFixed(k - 1);
    }
  }

  /** The Mandelbrot orbit of c = 0 stays at 0: every cap gives 0 under both conventions. */
  lemma MandelbrotOrigin(cap: nat)
    ensures RustCount(StepOf(Mandelbrot, Zero), Zero, cap) == 0
    ensures PythonCount(StepOf(Mandelbrot, Zero), Zero, cap) == 0
  {
    var f := StepOf(Mandelbrot, Zero);
    forall k: nat | k <= cap
      ensures !Escaped(Orbit(f, Zero, k))
    {
      OriginIsFixed(k);
    }
    InsideUpToMeans(f, Zero, cap + 1);
    RustCountIsFirstEscape(f, Zero, cap);
    PythonCountIsFirstEscape(f, Zero, cap);
  }

  /** The Mandelbrot point 2 + 2i leaves the disk after one step. */
  lemma MandelbrotTwoPlusTwoI(cap: nat)
    requires cap >= 1
    ensures RustCount(StepOf(Mandelbrot, Complex(2.0, 2.0)), Zero, cap) == 1
    ensures PythonCount(StepOf(Mandelbrot, Complex(2.0, 2.0)), Zero, cap) == if cap == 1 then 0 else 1
  {
    var f := StepOf(Mandelbrot, Complex(2.0, 2.0));
    assert Orbit(f, Zero, 1) == Complex(2.0, 2.0);
    ExitStepIs(f, Zero, cap, 1);
  }

  /**
   * Starting from 0 (Mandelbrot, Burning Ship) the loop always runs at least
   * once when the cap is at least 1.
   */
  lemma ZeroStartRunsOnce(f: Complex -> Complex, cap: nat)
    requires cap >= 1
    ensures ExitStep(f, Zero, cap) >= 1
  {
    ExitStepIsFirstEscape(f, Zero, cap);
  }
}
