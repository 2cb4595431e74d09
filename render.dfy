/**
 * The Rust renderer: the kernel chosen by fractal name, `render_on_grid`
 * filling a band of the grid in place, and the part of `main` that splits the
 * grid into bands and draws each one. The program draws the bands on
 * separate threads; they write disjoint rows, so here they are drawn one after
 * the other.
 */
module FractalRender {
  import opened Outcomes
  import opened ComplexPlane
  import opened EscapeTime
  import opened Viewport
  import opened Bands
  import opened RowPartition
  import JuliaKernel
  import BurningShipKernel
  import MandelbrotKernel

  /** The default viewport of each fractal. */
  function UpperLeft(family: Family): Complex {
    match family
    case Mandelbrot => MandelbrotKernel.UpperLeft
    case BurningShip => BurningShipKernel.UpperLeft
    case Julia => JuliaKernel.UpperLeft
  }

  function LowerRight(family: Family): Complex {
    match family
    case Mandelbrot => MandelbrotKernel.LowerRight
    case BurningShip => BurningShipKernel.LowerRight
    case Julia => JuliaKernel.LowerRight
  }

  /** The step map iterated for pixel p: c = p, except for Julia whose c is fixed. */
  function KernelMap(family: Family, p: Complex): Complex -> Complex {
    if family == Julia then StepOf(Julia, JuliaKernel.C) else StepOf(family, p)
  }

  /** The start of the orbit for pixel p: the pixel itself for Julia, 0 otherwise. */
  function KernelStart(family: Family, p: Complex): Complex {
    if family == Julia then p else Zero
  }

  /** The escape count the Rust kernel of `family` returns for pixel p. */
  function Kernel(family: Family, nMax: nat, p: Complex): nat {
    RustCount(KernelMap(family, p), KernelStart(family, p), nMax)
  }

  /**
   * Every kernel returns 0 or a step in 1..n_max at which the orbit first
   * leaves the disk of radius 2; a cap of 0 gives 0, and so does a Julia
   * start point already outside the disk.
   */
  lemma KernelCount(family: Family, nMax: nat, p: Complex)
    ensures var k := Kernel(family, nMax, p);
      && k <= nMax
      && (nMax == 0 ==> k == 0)
      && (k != 0 ==> Escaped(Orbit(KernelMap(family, p), KernelStart(family, p), k))
                     && InsideUpTo(KernelMap(family, p), KernelStart(family, p), k))
      && (family == Julia && Escaped(p) ==> k == 0)
  {
    RustCountIsFirstEscape(KernelMap(family, p), KernelStart(family, p), nMax);
  }

  /** The Mandelbrot kernel at c = 0 returns 0 whatever the cap, 1000 included. */
  lemma MandelbrotAtOrigin(nMax: nat)
    ensures Kernel(Mandelbrot, nMax, Zero) == 0
  {
    MandelbrotOrigin(nMax);
  }

  /** The `compute_suite` chosen by fractal name. */
  method ComputeSuite(family: Family, nMax: nat, p: Complex) returns (count: nat)
    ensures count == Kernel(family, nMax, p)
  {
    match family
    case Mandelbrot =>
      count := MandelbrotKernel.ComputeSuite(nMax, p);
    case BurningShip =>
      count := BurningShipKernel.ComputeSuite(nMax, p);
    case Julia =>
      count := JuliaKernel.ComputeSuite(nMax, p);
  }

  /**
   * `render_on_grid` on the band of `grid` that starts at row `rowOffset`:
   * cell (r, c) of the band gets the kernel's count at the r-th row and c-th
   * column of the viewport ul..lr; no other cell changes.
   */
  method RenderOnGrid(ul: Complex, lr: Complex, nRows: nat, nColumns: nat, nMax: nat,
                      grid: array2<nat>, rowOffset: nat, family: Family)
    requires nRows != 1 && nColumns != 1
    requires rowOffset + nRows <= grid.Length0 && nColumns <= grid.Length1
    modifies grid
    ensures forall i, j :: rowOffset <= i < rowOffset + nRows && 0 <= j < nColumns ==>
      grid[i, j] == Kernel(family, nMax, Pixel(ul, lr, nRows, nColumns, i - rowOffset, j))
    ensures forall i, j :: 0 <= i < grid.Length0 && 0 <= j < grid.Length1 ==>
      (rowOffset <= i < rowOffset + nRows && j < nColumns) || grid[i, j] == old(grid[i, j])
  {
    var deltaIm := (ul.im - lr.im) / (nRows as real - 1.0);
    var deltaRe := (lr.re - ul.re) / (nColumns as real - 1.0);
    var r := 0;
    while r < nRows
      invariant r <= nRows
      invariant forall i, j :: 0 <= i < grid.Length0 && 0 <= j < grid.Length1 ==>
        grid[i, j] == if rowOffset <= i < rowOffset + r && j < nColumns
                      then Kernel(family, nMax, Pixel(ul, lr, nRows, nColumns, i - rowOffset, j))
                      else old(grid[i, j])
    {
      var b := ul.im - (r as real) * deltaIm;
      var c := 0;
      while c < nColumns
        invariant c <= nColumns
        invariant forall i, j :: 0 <= i < grid.Length0 && 0 <= j < grid.Length1 ==>
          grid[i, j] == if (rowOffset <= i < rowOffset + r && j < nColumns) || (i == rowOffset + r && j < c)
                        then Kernel(family, nMax, Pixel(ul, lr, nRows, nColumns, i - rowOffset, j))
                        else old(grid[i, j])
      {
        var a := ul.re + (c as real) * deltaRe;
        var pixel := Complex(a, b);
        assert pixel == Pixel(ul, lr, nRows, nColumns, r, c);
        grid[rowOffset + r, c] := ComputeSuite(family, nMax, pixel);
        c := c + 1;
      }
      r := r + 1;
    }
  }

  /**
   * The point the program samples for row `row` and column `col` of the whole
   * grid: row `row` lies in band row / k at local row row % k, and the band is
   * drawn over its own corners with k rows.
   */
  function BandPixel(ul: Complex, lr: Complex, nRows: nat, nColumns: nat, nThreads: nat, row: nat, col: nat): Complex
    requires nThreads >= 1 && nRows / nThreads >= 2 && nColumns >= 2
    requires row < nThreads * (nRows / nThreads)
  {
    var k := nRows / nThreads;
    BandIndex(row, k, nThreads);
    var corners := BandsCorners(nThreads, ul, lr);
    Pixel(corners.0[row / k], corners.1[row / k], k, nColumns, row % k, col)
  }

  lemma BandIndex(row: nat, k: nat, n: nat)
    requires k >= 1 && row < n * k
    ensures row / k < n
  {
    RowBand(row, k, n);
  }

  /**
   * Where a band pixel lies: its column coordinate is that of the whole
   * viewport, and its row coordinate steps down from the top of its band by
   * the band height 2/n spread over k − 1 row gaps.
   */
  lemma BandPixelPlace(ul: Complex, lr: Complex, nRows: nat, nColumns: nat, nThreads: nat, row: nat, col: nat)
    requires nThreads >= 1 && nRows / nThreads >= 2 && nColumns >= 2
    requires row < nThreads * (nRows / nThreads)
    ensures BandPixel(ul, lr, nRows, nColumns, nThreads, row, col).re == ul.re + (col as real) * DeltaRe(ul, lr, nColumns)
    ensures BandPixel(ul, lr, nRows, nColumns, nThreads, row, col).im
      == BandTop(ul, nThreads, row / (nRows / nThreads))
         - ((row % (nRows / nThreads)) as real) * ((2.0 / (nThreads as real)) / ((nRows / nThreads) as real - 1.0))
  {
    var k := nRows / nThreads;
    BandIndex(row, k, nThreads);
    BandPixelAt(ul, lr, nRows, nColumns, nThreads, row, col, k, row / k, row % k);
  }

  /** `BandPixelPlace` with the band height k, the band b and the local row j named. */
  lemma BandPixelAt(ul: Complex, lr: Complex, nRows: nat, nColumns: nat, nThreads: nat, row: nat, col: nat,
                    k: nat, b: nat, j: nat)
    requires nThreads >= 1 && nRows / nThreads >= 2 && nColumns >= 2
    requires row < nThreads * (nRows / nThreads)
    requires k == nRows / nThreads && b == row / k && j == row % k && b < nThreads
    ensures BandPixel(ul, lr, nRows, nColumns, nThreads, row, col)
      == Complex(ul.re + (col as real) * DeltaRe(ul, lr, nColumns),
                 BandTop(ul, nThreads, b) - (j as real) * ((2.0 / (nThreads as real)) / (k as real - 1.0)))
  {
    var corners := BandsCorners(nThreads, ul, lr);
    var top := BandTop(ul, nThreads, b);
    var h := 2.0 / (nThreads as real);
    BandStep(ul, nThreads, b);
    assert corners.0[b].im == top && corners.0[b].im - corners.1[b].im == h;
    assert corners.0[b].re == ul.re && corners.1[b].re == lr.re;
    BandPixelIs(ul, lr, nRows, nColumns, nThreads, row, col, k, b, j);
    PixelInStrip(corners.0[b], corners.1[b], k, nColumns, j, col, top, h, ul, lr);
  }

  /**
   * The last row of each band and the first row of the next sample the same
   * points: the shared band edge is drawn twice, once by each band.
   */
  lemma SeamRowsCoincide(ul: Complex, lr: Complex, nRows: nat, nColumns: nat, nThreads: nat, row: nat, col: nat)
    requires nThreads >= 1 && nRows / nThreads >= 2 && nColumns >= 2
    requires nRows / nThreads <= row < nThreads * (nRows / nThreads) && row % (nRows / nThreads) == 0
    ensures BandPixel(ul, lr, nRows, nColumns, nThreads, row - 1, col) == BandPixel(ul, lr, nRows, nColumns, nThreads, row, col)
  {
    var k := nRows / nThreads;
    SeamIndices(row, k, nThreads);
    var i := row / k;
    var corners := BandsCorners(nThreads, ul, lr);
    BandsTile(nThreads, ul, lr);
    assert corners.1[i - 1].im == corners.0[i].im;
    var above := Pixel(corners.0[i - 1], corners.1[i - 1], k, nColumns, k - 1, col);
    var below := Pixel(corners.0[i], corners.1[i], k, nColumns, 0, col);
    assert BandPixel(ul, lr, nRows, nColumns, nThreads, row - 1, col) == above;
    assert BandPixel(ul, lr, nRows, nColumns, nThreads, row, col) == below;
    PixelEdges(corners.0[i - 1], corners.1[i - 1], k, nColumns, k - 1, col);
    PixelEdges(corners.0[i], corners.1[i], k, nColumns, 0, col);
    PixelColumn(corners.0[i - 1], corners.1[i - 1], k, corners.0[i], corners.1[i], k, nColumns, k - 1, 0, col);
  }

  /** A band start row other than row 0 and the row before it lie in consecutive bands. */
  lemma SeamIndices(row: nat, k: nat, n: nat)
    requires k >= 1 && k <= row < n * k && row % k == 0
    ensures 1 <= row / k < n
    ensures (row - 1) / k == row / k - 1 && (row - 1) % k == k - 1
  {
    var i := row / k;
    BandIndex(row, k, n);
    assert row == i * k;
    MulMono(i, 0, k);
    assert row - 1 == (i - 1) * k + (k - 1);
    DivUnique(row - 1, k, i - 1);
  }

  /**
   * With one thread and a viewport 2 high (all three defaults), the band
   * pixels are the pixels of the whole viewport.
   */
  lemma SingleBandIsViewport(ul: Complex, lr: Complex, nRows: nat, nColumns: nat, row: nat, col: nat)
    requires nRows >= 2 && nColumns >= 2 && row < nRows
    requires ul.im - lr.im == 2.0
    ensures BandPixel(ul, lr, nRows, nColumns, 1, row, col) == Pixel(ul, lr, nRows, nColumns, row, col)
  {
    SingleBand(ul, lr);
    DivUnique(row, nRows, 0);
  }

  /**
   * The first `drawn` rows hold their kernel counts; the other rows of the n·k
   * rows the bands cover, and the rows below them, are still 0.
   */
  ghost predicate BandsDrawn(fractal: array2<nat>, family: Family, nRows: nat, nColumns: nat, nMax: nat, nThreads: nat, drawn: nat)
    requires nThreads >= 1 && nRows / nThreads >= 2 && nColumns != 1
    requires fractal.Length0 == nRows && fractal.Length1 == nColumns
    reads fractal
  {
    var covered := nThreads * (nRows / nThreads);
    && (forall row, col :: 0 <= row < covered && 0 <= col < nColumns ==>
         fractal[row, col] == if row < drawn
           then Kernel(family, nMax, BandPixel(UpperLeft(family), LowerRight(family), nRows, nColumns, nThreads, row, col))
           else 0)
    && (forall row, col :: covered <= row < nRows && 0 <= col < nColumns ==> fractal[row, col] == 0)
  }

  /** Band i, rows i·k .. (i+1)·k − 1, is sampled over the i-th band corners with k rows. */
  lemma BandPixelInBand(ul: Complex, lr: Complex, nRows: nat, nColumns: nat, nThreads: nat, i: nat, row: nat, col: nat)
    requires nThreads >= 1 && nRows / nThreads >= 2 && nColumns >= 2
    requires i < nThreads
    requires i * (nRows / nThreads) <= row < i * (nRows / nThreads) + nRows / nThreads
    ensures row < nThreads * (nRows / nThreads)
    ensures BandPixel(ul, lr, nRows, nColumns, nThreads, row, col)
      == Pixel(BandsCorners(nThreads, ul, lr).0[i], BandsCorners(nThreads, ul, lr).1[i],
               nRows / nThreads, nColumns, row - i * (nRows / nThreads), col)
  {
    var k := nRows / nThreads;
    MulMono(i + 1, nThreads, k);
    assert (i + 1) * k == i * k + k;
    DivUnique(row, k, i);
    assert row == i * k + row % k;
    BandPixelIs(ul, lr, nRows, nColumns, nThreads, row, col, k, i, row - i * k);
  }

  /** `BandPixel` with the band height k, the band b and the local row j named. */
  lemma BandPixelIs(ul: Complex, lr: Complex, nRows: nat, nColumns: nat, nThreads: nat, row: nat, col: nat,
                    k: nat, b: nat, j: nat)
    requires nThreads >= 1 && nRows / nThreads >= 2 && nColumns >= 2
    requires row < nThreads * (nRows / nThreads)
    requires k == nRows / nThreads && b == row / k && j == row % k && b < nThreads
    ensures BandPixel(ul, lr, nRows, nColumns, nThreads, row, col)
      == Pixel(BandsCorners(nThreads, ul, lr).0[b], BandsCorners(nThreads, ul, lr).1[b], k, nColumns, j, col)
  {
  }

  /** Band i < n_threads is a full chunk of k rows inside the grid. */
  lemma BandFits(nRows: nat, nThreads: nat, i: nat)
    requires nThreads >= 1 && nRows / nThreads >= 1 && i < nThreads
    ensures i * (nRows / nThreads) + nRows / nThreads <= nThreads * (nRows / nThreads) <= nRows
    ensures i < ChunkCount(nRows, nRows / nThreads)
  {
    var k := nRows / nThreads;
    assert nRows == k * nThreads + nRows % nThreads;
    MulMono(i + 1, nThreads, k);
    assert (i + 1) * k == i * k + k;
    ChunksCoverThreads(nRows, nThreads);
  }

  /** One pass of the band loop of `main`: band i is drawn over its own corners with k rows. */
  method DrawBand(family: Family, nRows: nat, nColumns: nat, nMax: nat, nThreads: nat, fractal: array2<nat>,
                  i: nat, ghost start: nat)
    requires nThreads >= 1 && nRows / nThreads >= 2 && nColumns != 1
    requires fractal.Length0 == nRows && fractal.Length1 == nColumns
    requires i < nThreads && start == i * (nRows / nThreads)
    requires BandsDrawn(fractal, family, nRows, nColumns, nMax, nThreads, start)
    modifies fractal
    ensures BandsDrawn(fractal, family, nRows, nColumns, nMax, nThreads, start + nRows / nThreads)
  {
    var k := nRows / nThreads;
    var ul := UpperLeft(family);
    var lr := LowerRight(family);
    var corners := BandsCorners(nThreads, ul, lr);
    var covered := nThreads * k;
    BandFits(nRows, nThreads, i);
    assert ChunksMut(nRows, k)[i] == Range(start, start + k);
    RenderOnGrid(corners.0[i], corners.1[i], k, nColumns, nMax, fractal, ChunksMut(nRows, k)[i].start, family);
    forall row, col | 0 <= row < covered && 0 <= col < nColumns
      ensures fractal[row, col] == if row < start + k
        then Kernel(family, nMax, BandPixel(ul, lr, nRows, nColumns, nThreads, row, col))
        else 0
    {
      if start <= row < start + k {
        BandPixelInBand(ul, lr, nRows, nColumns, nThreads, i, row, col);
        assert fractal[row, col] == Kernel(family, nMax, Pixel(corners.0[i], corners.1[i], k, nColumns, row - start, col));
      } else {
        assert fractal[row, col] == old(fractal[row, col]);
      }
    }
  }

  /**
   * The band partition and drawing of `main`: k = n_rows / n_threads, the grid
   * of n_rows × n_columns zeros is cut into `chunks_mut(k)`, and chunk i is
   * drawn by `render_on_grid` over the i-th band corners with k rows. It
   * aborts as `PartitionRows` says; otherwise every cell holds the kernel's
   * count at its band pixel.
   *
   * A band of one row (k = 1) or a single column makes `render_on_grid`
   * divide by zero and sample NaN points, which the model does not compute:
   * such grids may only be asked for when the partition aborts anyway.
   */
  method Render(family: Family, nRows: nat, nColumns: nat, nMax: nat, nThreads: nat)
    returns (r: Result<array2<nat>, RenderError>)
    requires PartitionRows(nRows, nThreads).Ok? ==> nRows / nThreads != 1 && nColumns != 1
    ensures PartitionRows(nRows, nThreads).Err? ==> r == Err(PartitionRows(nRows, nThreads).error)
    ensures PartitionRows(nRows, nThreads).Ok? ==>
      && r.Ok? && fresh(r.value)
      && r.value.Length0 == nRows && r.value.Length1 == nColumns
      && forall row, col :: 0 <= row < nRows && 0 <= col < nColumns ==>
           r.value[row, col] == Kernel(family, nMax,
             BandPixel(UpperLeft(family), LowerRight(family), nRows, nColumns, nThreads, row, col))
  {
    if nThreads == 0 {
      assert PartitionRows(nRows, nThreads) == Err(DivisionByZero);
      return Err(DivisionByZero);
    }
    var k := nRows / nThreads;
    var corners := BandsCorners(nThreads, UpperLeft(family), LowerRight(family));
    var fractal := new nat[nRows, nColumns]((_, _) => 0);
    if k == 0 {
      assert PartitionRows(nRows, nThreads) == Err(ZeroChunkSize);
      return Err(ZeroChunkSize);
    }
    if k == 1 || nColumns == 1 {
      // NaN sampling: by the precondition, here the loop runs out of corner pairs.
      PartitionRowsOutcome(nRows, nThreads);
      return Err(CornerIndexOutOfBounds);
    }
    var inBounds := DrawBands(family, nRows, nColumns, nMax, nThreads, fractal);
    if !inBounds {
      assert PartitionRows(nRows, nThreads) == Err(CornerIndexOutOfBounds);
      return Err(CornerIndexOutOfBounds);
    }
    ExactChunks(nRows, nThreads);
    AllDrawn(fractal, family, nRows, nColumns, nMax, nThreads);
    r := Ok(fractal);
  }

  /**
   * The band loop of `main`: chunk i of `chunks_mut(k)` is drawn with corner
   * pair i; a chunk beyond the last corner pair stops the loop (`false`).
   */
  method DrawBands(family: Family, nRows: nat, nColumns: nat, nMax: nat, nThreads: nat, fractal: array2<nat>)
    returns (inBounds: bool)
    requires nThreads >= 1 && nRows / nThreads >= 2 && nColumns != 1
    requires fractal.Length0 == nRows && fractal.Length1 == nColumns
    requires forall row, col :: 0 <= row < nRows && 0 <= col < nColumns ==> fractal[row, col] == 0
    modifies fractal
    ensures inBounds <==> ChunkCount(nRows, nRows / nThreads) <= nThreads
    ensures inBounds ==> BandsDrawn(fractal, family, nRows, nColumns, nMax, nThreads, nThreads * (nRows / nThreads))
  {
    var k := nRows / nThreads;
    var corners := BandsCorners(nThreads, UpperLeft(family), LowerRight(family));
    var bands := ChunksMut(nRows, k);
    NothingDrawn(fractal, family, nRows, nColumns, nMax, nThreads);
    var i := 0;
    ghost var drawn := 0;
    while i < |bands|
      invariant i <= nThreads && i <= |bands| && drawn == i * k
      invariant BandsDrawn(fractal, family, nRows, nColumns, nMax, nThreads, drawn)
    {
      if i >= |corners.0| {
        return false;
      }
      DrawBand(family, nRows, nColumns, nMax, nThreads, fractal, i, drawn);
      assert (i + 1) * k == drawn + k;
      i, drawn := i + 1, drawn + k;
    }
    ChunksCoverThreads(nRows, nThreads);
    return true;
  }

  lemma NothingDrawn(fractal: array2<nat>, family: Family, nRows: nat, nColumns: nat, nMax: nat, nThreads: nat)
    requires nThreads >= 1 && nRows / nThreads >= 2 && nColumns != 1
    requires fractal.Length0 == nRows && fractal.Length1 == nColumns
    requires forall row, col :: 0 <= row < nRows && 0 <= col < nColumns ==> fractal[row, col] == 0
    ensures BandsDrawn(fractal, family, nRows, nColumns, nMax, nThreads, 0)
  {
  }

  lemma AllDrawn(fractal: array2<nat>, family: Family, nRows: nat, nColumns: nat, nMax: nat, nThreads: nat)
    requires nThreads >= 1 && nRows / nThreads >= 2 && nColumns != 1
    requires fractal.Length0 == nRows && fractal.Length1 == nColumns
    requires nRows == nThreads * (nRows / nThreads)
    requires BandsDrawn(fractal, family, nRows, nColumns, nMax, nThreads, nThreads * (nRows / nThreads))
    ensures forall row, col :: 0 <= row < nRows && 0 <= col < nColumns ==>
      fractal[row, col] == Kernel(family, nMax,
        BandPixel(UpperLeft(family), LowerRight(family), nRows, nColumns, nThreads, row, col))
  {
  }
}
