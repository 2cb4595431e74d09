/**
 * The pure-Python reference renderer: the same three escape-time loops with
 * the Python return rule (0 when the counter reached the cap), the grid loop
 * that fills a `uint8` array, and the band split `compute_corners_threads`,
 * which gives every band n_rows // n_threads rows and pins the last band's
 * lower-right corner to the viewport's own.
 */
module PythonNative {
  import opened Outcomes
  import opened ComplexPlane
  import opened EscapeTime
  import opened Viewport

  /** The Julia constant of the Python script, −0.8 + 0.156i. */
  const JuliaC := Complex(-0.8, 0.156)

  /** `compute_mandelbrot`: z -> z² + c from 0; `abs(z) <= 2` is NormSqr(z) <= 4. */
  method ComputeMandelbrot(c: Complex, maxIter: nat) returns (count: nat)
    ensures count == PythonCount(StepOf(Mandelbrot, c), Zero, maxIter)
  {
    var z := Zero;
    var n: nat := 0;
    while NormSqr(z) <= 4.0 && n < maxIter
      invariant n <= maxIter
      invariant z == Orbit(StepOf(Mandelbrot, c), Zero, n)
      invariant InsideUpTo(StepOf(Mandelbrot, c), Zero, n)
      decreases maxIter - n
    {
      z := Add(Mul(z, z), c);
      n := n + 1;
    }
    ExitStepIs(StepOf(Mandelbrot, c), Zero, maxIter, n);
    if n == maxIter {
      count := 0;
    } else {
      count := n;
    }
  }

  /** `compute_julia`: z -> z² + c from the given start z. */
  method ComputeJulia(start: Complex, c: Complex, maxIter: nat) returns (count: nat)
    ensures count == PythonCount(StepOf(Julia, c), start, maxIter)
  {
    var z := start;
    var n: nat := 0;
    while NormSqr(z) <= 4.0 && n < maxIter
      invariant n <= maxIter
      invariant z == Orbit(StepOf(Julia, c), start, n)
      invariant InsideUpTo(StepOf(Julia, c), start, n)
      decreases maxIter - n
    {
      z := Add(Mul(z, z), c);
      n := n + 1;
    }
    ExitStepIs(StepOf(Julia, c), start, maxIter, n);
    if n == maxIter {
      count := 0;
    } else {
      count := n;
    }
  }

  /** `compute_burning_ship`: z -> (|Re z| + i|Im z|)² + c from 0. */
  method ComputeBurningShip(c: Complex, maxIter: nat) returns (count: nat)
    ensures count == PythonCount(StepOf(BurningShip, c), Zero, maxIter)
  {
    var z := Zero;
    var n: nat := 0;
    while NormSqr(z) <= 4.0 && n < maxIter
      invariant n <= maxIter
      invariant z == Orbit(StepOf(BurningShip, c), Zero, n)
      invariant InsideUpTo(StepOf(BurningShip, c), Zero, n)
      decreases maxIter - n
    {
      z := Add(Square(FoldAbs(z)), c);
      n := n + 1;
    }
    ExitStepIs(StepOf(BurningShip, c), Zero, maxIter, n);
    if n == maxIter {
      count := 0;
    } else {
      count := n;
    }
  }

  /** The count the Python kernel of `family` returns for point p. */
  function Suite(family: Family, p: Complex, maxIter: nat): nat {
    match family
    case Mandelbrot => PythonCount(StepOf(Mandelbrot, p), Zero, maxIter)
    case Julia => PythonCount(StepOf(Julia, JuliaC), p, maxIter)
    case BurningShip => PythonCount(StepOf(BurningShip, p), Zero, maxIter)
  }

  /**
   * Each Python kernel returns a value below the cap (0 for a cap of 0); the
   * Julia kernel returns 0 for a start point outside radius 2, and the
   * Mandelbrot and Burning Ship loops, starting from 0, always run a step.
   */
  lemma SuiteBounds(family: Family, p: Complex, maxIter: nat)
    ensures maxIter >= 1 ==> Suite(family, p, maxIter) < maxIter
    ensures maxIter == 0 ==> Suite(family, p, maxIter) == 0
    ensures family == Julia && Escaped(p) ==> Suite(family, p, maxIter) == 0
    ensures family != Julia && maxIter >= 1 ==> ExitStep(StepOf(family, p), Zero, maxIter) >= 1
  {
    match family
    case Mandelbrot =>
      PythonCountIsFirstEscape(StepOf(Mandelbrot, p), Zero, maxIter);
      if maxIter >= 1 { ZeroStartRunsOnce(StepOf(Mandelbrot, p), maxIter); }
    case Julia =>
      PythonCountIsFirstEscape(StepOf(Julia, JuliaC), p, maxIter);
    case BurningShip =>
      PythonCountIsFirstEscape(StepOf(BurningShip, p), Zero, maxIter);
      if maxIter >= 1 { ZeroStartRunsOnce(StepOf(BurningShip, p), maxIter); }
  }

  /** The kernel passed as `compute_suite`: the Julia one closes over the constant c. */
  method ComputeSuite(family: Family, p: Complex, maxIter: nat) returns (count: nat)
    ensures count == Suite(family, p, maxIter)
  {
    match family
    case Mandelbrot =>
      count := ComputeMandelbrot(p, maxIter);
    case Julia =>
      count := ComputeJulia(p, JuliaC, maxIter);
    case BurningShip =>
      count := ComputeBurningShip(p, maxIter);
  }

  /**
   * `render_on_grid`: a fresh n_rows × n_columns `uint8` array whose cell
   * (r, c) is the kernel at the r-th row and c-th column of the viewport. The
   * two steps divide by n_rows − 1 and n_columns − 1, so a single row or a
   * single column raises `ZeroDivisionError`. A cap of at most 256 keeps every
   * count below 256, so each fits a cell.
   */
  method RenderOnGrid(ul: Complex, lr: Complex, nRows: nat, nColumns: nat, family: Family, maxIter: nat)
    returns (r: Result<array2<Byte>, PyError>)
    requires maxIter <= 256
    ensures r.Err? <==> nRows == 1 || nColumns == 1
    ensures r.Ok? ==>
      && fresh(r.value)
      && r.value.Length0 == nRows && r.value.Length1 == nColumns
      && forall row, col :: 0 <= row < nRows && 0 <= col < nColumns ==>
           r.value[row, col] == Suite(family, Pixel(ul, lr, nRows, nColumns, row, col), maxIter)
  {
    var result := new Byte[nRows, nColumns]((_, _) => 0);
    if nRows == 1 || nColumns == 1 {
      return Err(ZeroDivisionError);
    }
    if nRows == 0 || nColumns == 0 {
      return Ok(result);
    }
    var deltaIm := (ul.im - lr.im) / (nRows as real - 1.0);
    var deltaRe := (lr.re - ul.re) / (nColumns as real - 1.0);
    for i := 0 to nRows
      invariant forall y, x :: 0 <= y < nRows && 0 <= x < nColumns ==>
        result[y, x] == if y < i then Suite(family, Pixel(ul, lr, nRows, nColumns, y, x), maxIter) else 0
    {
      for j := 0 to nColumns
        invariant forall y, x :: 0 <= y < nRows && 0 <= x < nColumns ==>
          result[y, x] == if y < i || (y == i && x < j) then Suite(family, Pixel(ul, lr, nRows, nColumns, y, x), maxIter) else 0
      {
        var cplx := Complex(ul.re + (j as real) * deltaRe, ul.im - (i as real) * deltaIm);
        assert deltaRe == DeltaRe(ul, lr, nColumns) && deltaIm == DeltaIm(ul, lr, nRows);
        assert cplx == Pixel(ul, lr, nRows, nColumns, i, j);
        var count := ComputeSuite(family, cplx, maxIter);
        SuiteBounds(family, cplx, maxIter);
        result[i, j] := count;
      }
    }
    return Ok(result);
  }

  /** One band: its two corners and its grid size. */
  datatype BandSpec = BandSpec(start: Complex, end: Complex, nRows: nat, nColumns: nat)

  /** Raised by a division by zero: no threads, or a single row or column. */
  datatype PyError = ZeroDivisionError

  /** The imaginary part of band edge i: ul.im − i·Δy with Δy = (ul.im − lr.im)/n. */
  function EdgeIm(ul: Complex, lr: Complex, n: nat, i: nat): real
    requires n >= 1
  {
    ul.im - (i as real) * ((ul.im - lr.im) / (n as real))
  }

  /** Consecutive band edges are Δy apart. */
  lemma EdgeStep(ul: Complex, lr: Complex, n: nat, i: nat)
    requires n >= 1
    ensures EdgeIm(ul, lr, n, i) - EdgeIm(ul, lr, n, i + 1) == (ul.im - lr.im) / (n as real)
  {
    var dy := (ul.im - lr.im) / (n as real);
    assert ((i + 1) as real) * dy == (i as real) * dy + dy;
  }

  /** Edge n, one past the last band, lies at lr.im. */
  lemma EdgeLast(ul: Complex, lr: Complex, n: nat)
    requires n >= 1
    ensures EdgeIm(ul, lr, n, n) == lr.im
  {
    var d := n as real;
    var dy := (ul.im - lr.im) / d;
    assert d * dy == ul.im - lr.im;
  }

  /** The band list `compute_corners_threads` builds. */
  function CornersThreads(ul: Complex, lr: Complex, nRows: nat, nColumns: nat, nThreads: nat): (r: seq<BandSpec>)
    requires nThreads >= 1
    ensures |r| == nThreads
  {
    seq(nThreads, i requires 0 <= i < nThreads =>
      BandSpec(Complex(ul.re, EdgeIm(ul, lr, nThreads, i)),
               if i == nThreads - 1 then lr else Complex(lr.re, EdgeIm(ul, lr, nThreads, i + 1)),
               nRows / nThreads, nColumns))
  }

  /** Band i of `CornersThreads`, its edges written with Δy as the loop computes them. */
  lemma CornersThreadsAt(ul: Complex, lr: Complex, nRows: nat, nColumns: nat, nThreads: nat, i: nat)
    requires 1 <= nThreads && i < nThreads
    ensures CornersThreads(ul, lr, nRows, nColumns, nThreads)[i]
      == BandSpec(Complex(ul.re, ul.im - (i as real) * ((ul.im - lr.im) / (nThreads as real))),
                  if i == nThreads - 1 then lr
                  else Complex(lr.re, ul.im - ((i + 1) as real) * ((ul.im - lr.im) / (nThreads as real))),
                  nRows / nThreads, nColumns)
  {
  }

  /** `compute_corners_threads`: appends one band per thread. */
  method ComputeCornersThreads(ul: Complex, lr: Complex, nRows: nat, nColumns: nat, nThreads: nat)
    returns (r: Result<seq<BandSpec>, PyError>)
    ensures nThreads == 0 ==> r == Err(ZeroDivisionError)
    ensures nThreads >= 1 ==> r == Ok(CornersThreads(ul, lr, nRows, nColumns, nThreads))
  {
    if nThreads == 0 {
      return Err(ZeroDivisionError);
    }
    var corners: seq<BandSpec> := [];
    var nRowsPerThread := nRows / nThreads;
    var deltaY := (ul.im - lr.im) / (nThreads as real);
    ghost var spec := CornersThreads(ul, lr, nRows, nColumns, nThreads);
    for i := 0 to nThreads
      invariant corners == spec[..i]
    {
      var start := Complex(ul.re, ul.im - (i as real) * deltaY);
      var end;
      if i == nThreads - 1 {
        end := lr;
      } else {
        end := Complex(lr.re, ul.im - ((i + 1) as real) * deltaY);
      }
      CornersThreadsAt(ul, lr, nRows, nColumns, nThreads, i);
      assert BandSpec(start, end, nRowsPerThread, nColumns) == spec[i];
      corners := corners + [BandSpec(start, end, nRowsPerThread, nColumns)];
    }
    assert corners == spec;
    return Ok(corners);
  }

  /**
   * The bands run from ul to lr: band 0 starts at ul, the last band ends at
   * lr, starts keep ul's real part and ends lr's.
   */
  lemma CornersThreadsEnds(ul: Complex, lr: Complex, nRows: nat, nColumns: nat, nThreads: nat)
    requires nThreads >= 1
    ensures CornersThreads(ul, lr, nRows, nColumns, nThreads)[0].start == ul
    ensures CornersThreads(ul, lr, nRows, nColumns, nThreads)[nThreads - 1].end == lr
    ensures forall i :: 0 <= i < nThreads ==>
      CornersThreads(ul, lr, nRows, nColumns, nThreads)[i].start.re == ul.re &&
      CornersThreads(ul, lr, nRows, nColumns, nThreads)[i].end.re == lr.re
  {
    assert EdgeIm(ul, lr, nThreads, 0) == ul.im;
  }

  /** Each band ends where the next one starts. */
  lemma CornersThreadsAdjacent(ul: Complex, lr: Complex, nRows: nat, nColumns: nat, nThreads: nat)
    requires nThreads >= 1
    ensures forall i :: 0 <= i < nThreads - 1 ==>
      CornersThreads(ul, lr, nRows, nColumns, nThreads)[i].end.im == CornersThreads(ul, lr, nRows, nColumns, nThreads)[i + 1].start.im
  {
    var b := CornersThreads(ul, lr, nRows, nColumns, nThreads);
    forall i | 0 <= i < nThreads - 1
      ensures b[i].end.im == b[i + 1].start.im
    {
      assert b[i].end.im == EdgeIm(ul, lr, nThreads, i + 1);
      assert b[i + 1].start.im == EdgeIm(ul, lr, nThreads, i + 1);
    }
  }

  /**
   * The bands cut the viewport into n strips of equal height: every band is
   * (ul.im − lr.im)/n high, the last one (pinned to lr) included.
   */
  lemma CornersThreadsHeight(ul: Complex, lr: Complex, nRows: nat, nColumns: nat, nThreads: nat)
    requires nThreads >= 1
    ensures forall i :: 0 <= i < nThreads ==>
      CornersThreads(ul, lr, nRows, nColumns, nThreads)[i].start.im - CornersThreads(ul, lr, nRows, nColumns, nThreads)[i].end.im
        == (ul.im - lr.im) / (nThreads as real)
  {
    var b := CornersThreads(ul, lr, nRows, nColumns, nThreads);
    EdgeLast(ul, lr, nThreads);
    forall i | 0 <= i < nThreads
      ensures b[i].start.im - b[i].end.im == (ul.im - lr.im) / (nThreads as real)
    {
      EdgeStep(ul, lr, nThreads, i);
      assert b[i].start.im == EdgeIm(ul, lr, nThreads, i);
      assert b[i].end.im == EdgeIm(ul, lr, nThreads, i + 1);
    }
  }

  /**
   * Every band has n_rows // n_threads rows and n_columns columns, so the
   * bands hold n_threads · (n_rows // n_threads) rows: the n_rows % n_threads
   * remaining rows are dropped.
   */
  lemma CornersThreadsRows(ul: Complex, lr: Complex, nRows: nat, nColumns: nat, nThreads: nat)
    requires nThreads >= 1
    ensures var b := CornersThreads(ul, lr, nRows, nColumns, nThreads);
      && (forall i :: 0 <= i < nThreads ==> b[i].nRows == nRows / nThreads && b[i].nColumns == nColumns)
      && nThreads * (nRows / nThreads) == nRows - nRows % nThreads
      && nThreads * (nRows / nThreads) <= nRows
  {
    assert nRows == (nRows / nThreads) * nThreads + nRows % nThreads;
  }
}
