/**
 * The normaliser of `write_scaled_2d_array_to_grayscale_image`: one pass finds
 * the smallest and largest count of the grid, a second pass maps every count
 * linearly onto the 8-bit range 0..255 (optionally inverted) and stores it in
 * an image buffer of width = length of the first row and height = number of rows.
 */
module Grayscale {
  import opened Outcomes

  /** How the Rust function aborts. */
  datatype ImageFault =
    | EmptyData         // data[0] on an empty grid
    | PixelOutOfBounds  // put_pixel at a column beyond the first row's length

  /** Every cell fits a `u32`. */
  ghost predicate U32Cells(data: seq<seq<nat>>) {
    forall y, x :: 0 <= y < |data| && 0 <= x < |data[y]| ==> data[y][x] <= U32_MAX
  }

  ghost predicate HasCell(data: seq<seq<nat>>) {
    exists y :: 0 <= y < |data| && |data[y]| > 0
  }

  /**
   * `lo` and `hi` are what the min/max pass leaves: the least and greatest
   * cell, or the starting values u32::MAX and 0 when there is no cell.
   */
  ghost predicate IsMinMax(data: seq<seq<nat>>, lo: nat, hi: nat) {
    && (forall y, x :: 0 <= y < |data| && 0 <= x < |data[y]| ==> lo <= data[y][x] <= hi)
    && (HasCell(data) ==>
          (exists y, x :: 0 <= y < |data| && 0 <= x < |data[y]| && data[y][x] == lo) &&
          (exists y, x :: 0 <= y < |data| && 0 <= x < |data[y]| && data[y][x] == hi))
    && (!HasCell(data) ==> lo == U32_MAX && hi == 0)
  }

  /** The extremes are determined by the grid: two results of the pass agree. */
  lemma MinMaxUnique(data: seq<seq<nat>>, lo: nat, hi: nat, lo': nat, hi': nat)
    requires IsMinMax(data, lo, hi) && IsMinMax(data, lo', hi')
    ensures lo == lo' && hi == hi'
  {
    if HasCell(data) {
      var y, x :| 0 <= y < |data| && 0 <= x < |data[y]| && data[y][x] == lo;
      var y', x' :| 0 <= y' < |data| && 0 <= x' < |data[y']| && data[y'][x'] == lo';
      var v, u :| 0 <= v < |data| && 0 <= u < |data[v]| && data[v][u] == hi;
      var v', u' :| 0 <= v' < |data| && 0 <= u' < |data[v']| && data[v'][u'] == hi';
    }
  }

  /** On a grid whose cells all equal c, both extremes are c. */
  lemma UniformExtremes(data: seq<seq<nat>>, c: nat, lo: nat, hi: nat)
    requires IsMinMax(data, lo, hi) && HasCell(data)
    requires forall y, x :: 0 <= y < |data| && 0 <= x < |data[y]| ==> data[y][x] == c
    ensures lo == c && hi == c
  {
    var y :| 0 <= y < |data| && |data[y]| > 0;
    assert lo <= data[y][0] <= hi;
    var y1, x1 :| 0 <= y1 < |data| && 0 <= x1 < |data[y1]| && data[y1][x1] == lo;
    var y2, x2 :| 0 <= y2 < |data| && 0 <= x2 < |data[y2]| && data[y2][x2] == hi;
  }

  /** The min/max pass, row by row and cell by cell. */
  method FindMinMax(data: seq<seq<nat>>) returns (min: nat, max: nat)
    requires U32Cells(data)
    ensures IsMinMax(data, min, max)
  {
    min := U32_MAX;
    max := 0;
    ghost var seen := false;
    for y := 0 to |data|
      invariant forall i, j :: 0 <= i < y && 0 <= j < |data[i]| ==> min <= data[i][j] <= max
      invariant seen <==> exists i :: 0 <= i < y && |data[i]| > 0
      invariant seen ==> exists i, j :: 0 <= i < y && 0 <= j < |data[i]| && data[i][j] == min
      invariant seen ==> exists i, j :: 0 <= i < y && 0 <= j < |data[i]| && data[i][j] == max
      invariant !seen ==> min == U32_MAX && max == 0
    {
      for x := 0 to |data[y]|
        invariant forall i, j :: (0 <= i < y && 0 <= j < |data[i]|) || (i == y && 0 <= j < x) ==> min <= data[i][j] <= max
        invariant seen <==> (exists i :: 0 <= i < y && |data[i]| > 0) || x > 0
        invariant seen ==> exists i, j :: ((0 <= i < y && 0 <= j < |data[i]|) || (i == y && 0 <= j < x)) && data[i][j] == min
        invariant seen ==> exists i, j :: ((0 <= i < y && 0 <= j < |data[i]|) || (i == y && 0 <= j < x)) && data[i][j] == max
        invariant !seen ==> min == U32_MAX && max == 0
      {
        var val := data[y][x];
        if val < min {
          min := val;
        }
        if val > max {
          max := val;
        }
        seen := true;
      }
    }
  }

  /** `f64::round` on a non-negative value: halves round up. */
  function Round(x: real): int
    requires x >= 0.0
  {
    (x + 0.5).Floor
  }

  lemma FloorMono(x: real, y: real)
    ensures x <= y ==> x.Floor <= y.Floor
  {
  }

  /** The position of v between lo and hi, times 255: a value in [0, 255]. */
  function Ramp(v: nat, lo: nat, hi: nat): (t: real)
    requires lo <= v <= hi && lo < hi
    ensures 0.0 <= t <= 255.0
  {
    var d := (hi - lo) as real;
    var a := (v - lo) as real;
    FractionBounds(a, d);
    a / d * 255.0
  }

  /** A quotient of a non-negative value by a larger positive one lies in [0, 1]. */
  lemma FractionBounds(a: real, d: real)
    requires 0.0 <= a <= d && d > 0.0
    ensures 0.0 <= a / d <= 1.0
  {
    var q := a / d;
    assert q * d == a;
    assert q > 1.0 ==> q * d > 1.0 * d;
    assert q < 0.0 ==> q * d < 0.0 * d;
  }

  /** The scaled value of v: (v − lo)/(hi − lo) · 255, rounded. */
  function Scaled(v: nat, lo: nat, hi: nat): (s: Byte)
    requires lo <= v <= hi && lo < hi
  {
    var t := Ramp(v, lo, hi);
    FloorMono(t + 0.5, 255.5);
    Round(t)
  }

  /** The pixel value of cell v: 0 on a flat grid, and 255 − s when inverted. */
  function Intensity(v: nat, lo: nat, hi: nat, invert: bool): Byte
    requires lo <= v <= hi
  {
    var s := if hi == lo then 0 else Scaled(v, lo, hi);
    if invert then 255 - s else s
  }

  /** The smallest cell maps to 0 and the largest to 255; inversion swaps them. */
  lemma IntensityEnds(lo: nat, hi: nat)
    requires lo < hi
    ensures Intensity(lo, lo, hi, false) == 0 && Intensity(hi, lo, hi, false) == 255
    ensures Intensity(lo, lo, hi, true) == 255 && Intensity(hi, lo, hi, true) == 0
  {
    var d := (hi - lo) as real;
    assert d / d == 1.0;
  }

  /** Inverting replaces every pixel value s by 255 − s. */
  lemma IntensityInvert(v: nat, lo: nat, hi: nat)
    requires lo <= v <= hi
    ensures Intensity(v, lo, hi, true) == 255 - Intensity(v, lo, hi, false)
  {
  }

  /** A flat grid (all cells equal) comes out all 0, or all 255 when inverted. */
  lemma UniformIntensity(v: nat, invert: bool)
    ensures Intensity(v, v, v, invert) == if invert then 255 else 0
  {
  }

  /** A larger count never gets a darker pixel, and never a lighter one when inverted. */
  lemma IntensityMonotone(v: nat, w: nat, lo: nat, hi: nat)
    requires lo <= v <= w <= hi
    ensures Intensity(v, lo, hi, false) <= Intensity(w, lo, hi, false)
    ensures Intensity(v, lo, hi, true) >= Intensity(w, lo, hi, true)
  {
    if lo < hi {
      var d := (hi - lo) as real;
      var a := (v - lo) as real;
      var b := (w - lo) as real;
      assert a / d <= b / d by {
        assert a / d * d == a;
        assert b / d * d == b;
      }
      FloorMono(Ramp(v, lo, hi) + 0.5, Ramp(w, lo, hi) + 0.5);
    }
  }

  /**
   * The whole function up to saving the file: the image has one row per grid
   * row and as many columns as the first row; cell (y, x) holds the intensity
   * of data[y][x], pixels past a shorter row stay 0. A grid with no rows, or a
   * row longer than the first, aborts.
   */
  method WriteScaledGrayscale(data: seq<seq<nat>>, invert: bool)
    returns (r: Result<array2<Byte>, ImageFault>, ghost lo: nat, ghost hi: nat)
    requires U32Cells(data)
    ensures IsMinMax(data, lo, hi)
    ensures |data| == 0 ==> r == Err(EmptyData)
    ensures |data| >= 1 ==> (r.Ok? <==> forall y :: 0 <= y < |data| ==> |data[y]| <= |data[0]|)
    ensures r.Err? ==> r.error == (if |data| == 0 then EmptyData else PixelOutOfBounds)
    ensures r.Ok? ==>
      && fresh(r.value)
      && r.value.Length0 == |data| && r.value.Length1 == |data[0]|
      && forall y, x :: 0 <= y < |data| && 0 <= x < |data[0]| ==>
           r.value[y, x] == if x < |data[y]| then Intensity(data[y][x], lo, hi, invert) else 0
  {
    var min, max := FindMinMax(data);
    lo, hi := min, max;
    if |data| == 0 {
      return Err(EmptyData), lo, hi;
    }
    var width := |data[0]|;
    var height := |data|;
    var img := new Byte[height, width]((_, _) => 0);
    for y := 0 to height
      invariant forall i :: 0 <= i < y ==> |data[i]| <= width
      invariant forall i, j :: 0 <= i < height && 0 <= j < width ==>
        img[i, j] == if i < y && j < |data[i]| then Intensity(data[i][j], lo, hi, invert) else 0
    {
      for x := 0 to |data[y]|
        invariant x <= width
        invariant forall i, j :: 0 <= i < height && 0 <= j < width ==>
          img[i, j] == if (i < y && j < |data[i]|) || (i == y && j < x) then Intensity(data[i][j], lo, hi, invert) else 0
      {
        if x >= width {
          return Err(PixelOutOfBounds), lo, hi;
        }
        var val := data[y][x];
        var scaled: Byte := if max == min then 0 else Scaled(val, min, max);
        if invert {
          scaled := 255 - scaled;
        }
        img[y, x] := scaled;
      }
    }
    r := Ok(img);
  }
}
