/**
 * `compute_bands_corners` of the Rust renderer: the corners of `n` horizontal
 * bands, one per thread. Band i spans the imaginary parts from
 * ul.im − 2i/n down to ul.im − 2(i+1)/n: the band height is the constant
 * 2/n, not a fraction of the viewport's own height.
 */
module Bands {
  import opened ComplexPlane

  function BandTop(ul: Complex, n: nat, i: nat): real
    requires n >= 1
  {
    ul.im - (i as real) * 2.0 / (n as real)
  }

  /** The two corner lists, upper-left corners first. */
  function BandsCorners(n: nat, ul: Complex, lr: Complex): (r: (seq<Complex>, seq<Complex>))
    ensures |r.0| == n && |r.1| == n
    ensures forall i :: 0 <= i < n ==> r.0[i].re == ul.re && r.1[i].re == lr.re
    ensures n >= 1 ==> r.0[0] == ul
    ensures forall i :: 0 <= i < n ==> r.0[i].im == BandTop(ul, n, i) && r.1[i].im == BandTop(ul, n, i + 1)
  {
    (seq(n, i requires 0 <= i < n => Complex(ul.re, ul.im - (i as real) * 2.0 / (n as real))),
     seq(n, i requires 0 <= i < n => Complex(lr.re, ul.im - (i as real + 1.0) * 2.0 / (n as real))))
  }

  /**
   * The bands tile a strip of height 2 below ul: each band is 2/n high, each
   * band's lower edge is the next band's upper edge, and the last band ends at
   * ul.im − 2.
   */
  lemma BandsTile(n: nat, ul: Complex, lr: Complex)
    requires n >= 1
    ensures forall i :: 0 <= i < n ==>
      BandsCorners(n, ul, lr).0[i].im - BandsCorners(n, ul, lr).1[i].im == 2.0 / (n as real)
    ensures forall i :: 0 <= i < n - 1 ==> BandsCorners(n, ul, lr).1[i].im == BandsCorners(n, ul, lr).0[i + 1].im
    ensures BandsCorners(n, ul, lr).1[n - 1].im == ul.im - 2.0
  {
    var r := BandsCorners(n, ul, lr);
    forall i | 0 <= i < n
      ensures r.0[i].im - r.1[i].im == 2.0 / (n as real)
    {
      BandStep(ul, n, i);
    }
    BandTopLast(ul, n);
  }

  lemma BandStep(ul: Complex, n: nat, i: nat)
    requires n >= 1
    ensures BandTop(ul, n, i) - BandTop(ul, n, i + 1) == 2.0 / (n as real)
  {
    var d := n as real;
    assert ((i as real + 1.0) * 2.0) / d == (i as real) * 2.0 / d + 2.0 / d;
  }

  lemma BandTopLast(ul: Complex, n: nat)
    requires n >= 1
    ensures BandTop(ul, n, n) == ul.im - 2.0
  {
    var d := n as real;
    assert (d * 2.0) / d == 2.0;
  }

  /**
   * The last band reaches the lower-right corner exactly when the viewport is
   * 2 high, which holds for all three default viewports.
   */
  lemma LastBandReachesCorner(n: nat, ul: Complex, lr: Complex)
    requires n >= 1
    ensures BandsCorners(n, ul, lr).1[n - 1] == lr <==> ul.im - lr.im == 2.0
  {
    BandsTile(n, ul, lr);
  }

  /** With a single band the corners are the viewport's own, for a viewport 2 high. */
  lemma SingleBand(ul: Complex, lr: Complex)
    requires ul.im - lr.im == 2.0
    ensures BandsCorners(1, ul, lr) == ([ul], [lr])
  {
    var r := BandsCorners(1, ul, lr);
    LastBandReachesCorner(1, ul, lr);
    assert r.0 == [ul];
    assert r.1 == [lr];
  }

  /** Four bands over the Mandelbrot viewport split the imaginary range [-1, 1] into quarters. */
  lemma FourBands()
    ensures BandsCorners(4, Complex(-2.0, 1.0), Complex(1.0, -1.0)) ==
      ([Complex(-2.0, 1.0), Complex(-2.0, 0.5), Complex(-2.0, 0.0), Complex(-2.0, -0.5)],
       [Complex(1.0, 0.5), Complex(1.0, 0.0), Complex(1.0, -0.5), Complex(1.0, -1.0)])
  {
    var ul := Complex(-2.0, 1.0);
    var r := BandsCorners(4, ul, Complex(1.0, -1.0));
    assert BandTop(ul, 4, 1) == 0.5 && BandTop(ul, 4, 2) == 0.0;
    assert BandTop(ul, 4, 3) == -0.5 && BandTop(ul, 4, 4) == -1.0;
    assert r.0 == [Complex(-2.0, 1.0), Complex(-2.0, 0.5), Complex(-2.0, 0.0), Complex(-2.0, -0.5)];
    assert r.1 == [Complex(1.0, 0.5), Complex(1.0, 0.0), Complex(1.0, -0.5), Complex(1.0, -1.0)];
  }
}
