/**
 * The map from grid cells to points of the complex plane used by both
 * `render_on_grid` functions (Rust and Python): row r and column c of an
 * `nRows` x `nColumns` grid spanning the corners `ul` (upper left) and `lr`
 * (lower right) is the point ul.re + c·Δre + i(ul.im − r·Δim).
 */
module Viewport {
  import opened ComplexPlane

  /** The horizontal step between two columns. */
  function DeltaRe(ul: Complex, lr: Complex, nColumns: nat): real
    requires nColumns >= 2
  {
    (lr.re - ul.re) / (nColumns as real - 1.0)
  }

  /** The vertical step between two rows. */
  function DeltaIm(ul: Complex, lr: Complex, nRows: nat): real
    requires nRows >= 2
  {
    (ul.im - lr.im) / (nRows as real - 1.0)
  }

  function Pixel(ul: Complex, lr: Complex, nRows: nat, nColumns: nat, r: nat, c: nat): Complex
    requires nRows >= 2 && nColumns >= 2
  {
    Complex(ul.re + (c as real) * DeltaRe(ul, lr, nColumns), ul.im - (r as real) * DeltaIm(ul, lr, nRows))
  }

  /**
   * Row 0 lies on the upper edge and row nRows − 1 on the lower edge; column 0
   * lies on the left edge and column nColumns − 1 on the right edge.
   */
  lemma PixelEdges(ul: Complex, lr: Complex, nRows: nat, nColumns: nat, r: nat, c: nat)
    requires nRows >= 2 && nColumns >= 2
    ensures Pixel(ul, lr, nRows, nColumns, 0, c).im == ul.im
    ensures Pixel(ul, lr, nRows, nColumns, nRows - 1, c).im == lr.im
    ensures Pixel(ul, lr, nRows, nColumns, r, 0).re == ul.re
    ensures Pixel(ul, lr, nRows, nColumns, r, nColumns - 1).re == lr.re
  {
    var dr := nColumns as real - 1.0;
    var di := nRows as real - 1.0;
    assert ((nColumns - 1) as real) * ((lr.re - ul.re) / dr) == lr.re - ul.re;
    assert ((nRows - 1) as real) * ((ul.im - lr.im) / di) == ul.im - lr.im;
  }

  /** The real part depends only on the column and the corners' real parts. */
  lemma PixelColumn(ul: Complex, lr: Complex, nRows: nat, ul': Complex, lr': Complex, nRows': nat,
                    nColumns: nat, r: nat, r': nat, c: nat)
    requires nRows >= 2 && nRows' >= 2 && nColumns >= 2
    requires ul.re == ul'.re && lr.re == lr'.re
    ensures Pixel(ul, lr, nRows, nColumns, r, c).re == Pixel(ul', lr', nRows', nColumns, r', c).re
  {
  }

  /**
   * A viewport whose top is `top`, whose height is `h` and whose real extent is
   * that of ul'..lr': row r lies r·h/(nRows − 1) below the top, and column c
   * lies where it lies in ul'..lr'.
   */
  lemma PixelInStrip(ul: Complex, lr: Complex, nRows: nat, nColumns: nat, r: nat, c: nat,
                     top: real, h: real, ul': Complex, lr': Complex)
    requires nRows >= 2 && nColumns >= 2
    requires ul.im == top && ul.im - lr.im == h
    requires ul.re == ul'.re && lr.re == lr'.re
    ensures Pixel(ul, lr, nRows, nColumns, r, c)
      == Complex(ul'.re + (c as real) * DeltaRe(ul', lr', nColumns), top - (r as real) * (h / (nRows as real - 1.0)))
  {
    assert DeltaIm(ul, lr, nRows) == h / (nRows as real - 1.0);
    assert DeltaRe(ul, lr, nColumns) == DeltaRe(ul', lr', nColumns);
  }

  /** The first cell is the upper-left corner and the last cell the lower-right corner. */
  lemma PixelCorners(ul: Complex, lr: Complex, nRows: nat, nColumns: nat)
    requires nRows >= 2 && nColumns >= 2
    ensures Pixel(ul, lr, nRows, nColumns, 0, 0) == ul
    ensures Pixel(ul, lr, nRows, nColumns, nRows - 1, nColumns - 1) == lr
  {
    PixelEdges(ul, lr, nRows, nColumns, 0, 0);
    PixelEdges(ul, lr, nRows, nColumns, nRows - 1, nColumns - 1);
  }

  /**
   * Columns move right by the same step and rows move down by the same step:
   * a row shares its imaginary part, a column its real part.
   */
  lemma PixelGrid(ul: Complex, lr: Complex, nRows: nat, nColumns: nat, r: nat, c: nat)
    requires nRows >= 2 && nColumns >= 2
    ensures Pixel(ul, lr, nRows, nColumns, r, c + 1).re - Pixel(ul, lr, nRows, nColumns, r, c).re == DeltaRe(ul, lr, nColumns)
    ensures Pixel(ul, lr, nRows, nColumns, r, c).im - Pixel(ul, lr, nRows, nColumns, r + 1, c).im == DeltaIm(ul, lr, nRows)
    ensures Pixel(ul, lr, nRows, nColumns, r, c).im == Pixel(ul, lr, nRows, nColumns, r, 0).im
    ensures Pixel(ul, lr, nRows, nColumns, r, c).re == Pixel(ul, lr, nRows, nColumns, 0, c).re
  {
  }
}
