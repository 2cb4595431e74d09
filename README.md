# Escape-time fractals, a linked list and an array exercise, in Dafny

This project models the computational core of a small collection of Rust and
Python programs and proves properties of it.

**The fractal renderer** (`fractals/src/main.rs`) draws the Mandelbrot set,
the Burning Ship set and a Julia set as grids of escape counts.
- Each family has a kernel (`compute_suite`). The kernel iterates z ↦ z² + c,
  or (|Re z| + i|Im z|)² + c for the Burning Ship, while |z| ≤ 2 and the
  counter is below the cap. It returns the counter if the last point lies
  outside radius 2, and 0 otherwise.
- `render_on_grid` fills a band of the grid in place: cell (r, c) gets the
  kernel at ul.re + c·Δre + i(ul.im − r·Δim).
- `main` cuts the grid into bands:
  - k = n_rows / n_threads;
  - `compute_bands_corners` gives band i the imaginary range
    [ul.im − (i+1)·2/n, ul.im − i·2/n];
  - `chunks_mut(k)` cuts the rows into chunks, and chunk i is drawn over corner pair i.
- `write_scaled_2d_array_to_grayscale_image` finds the minimum and the
  maximum count. It maps every count linearly onto 0..255, rounding, and
  optionally inverts the result.

**The pure-Python reference** (`fractals/compare_python/python_native.py`) has:
- the same three loops, with a different return rule: 0 when the counter
  reached the cap;
- a grid loop that fills a `uint8` array;
- `compute_corners_threads`, which splits the viewport into n_threads strips.

**The recursive list** (`recursive_structures/src/datastructures.rs`) is
`LinkedList<T>` with:
- indexing, which walks the nodes and panics past the end;
- `Display`, which writes "[v1, v2, …, vn]" (or "[" for the empty list).

**The `primitive_types3` exercise** fills an `[i32; 1000]` array with its
indices and checks that its length is at least 100.

## How it is organised

- **Numbers.** Coordinates are exact `real`s, and a complex number is a
  datatype (`complex.dfy`). `abs(z) <= 2` is stated as `NormSqr(z) <= 4`,
  which is the same condition over the reals.
- **Escape specification.** The escape-time loop is specified once, for any
  step map (`escape.dfy`):
  - `Orbit` is the independent reference: the orbit itself.
  - `ExitStep` is where the loop stops.
  - `RustCount` and `PythonCount` are the two return rules.

  Every kernel is an imperative `method` with the source's loop, proved equal
  to one of these. Lemmas characterise them as the first escape.
- **The grid** is an `array2` that the methods fill in place. A band slice of
  the Rust grid is the whole array plus a row offset.
- **Program aborts** are modelled as `Result` errors. These cover: a division
  by zero, `chunks_mut(0)`, an index past the corner vectors, an index past
  the list, `data[0]` on an empty grid, `put_pixel` out of bounds, and
  Python's `ZeroDivisionError`.

## Model

| member | source | states |
|---|---|---|
| ComplexPlane.NormSqr | fractals/src/main.rs:70 | the squared modulus is never negative |
| EscapeTime.ExitFrom | fractals/src/main.rs:120-123 | the loop entered with counter n stops at a counter between n and the cap |
| EscapeTime.InsideUpToMeans | fractals/src/main.rs:120 | "inside up to k" holds exactly when none of the orbit points 0..k−1 lies outside radius 2 |
| EscapeTime.ExitFromIsFirstEscape | fractals/src/main.rs:120-123 | from any counter whose earlier points were all inside, the loop stops at a counter whose earlier points are inside and that, below the cap, is outside |
| EscapeTime.ExitStepIsFirstEscape | fractals/src/main.rs:120-123 | the loop stops at the first orbit index outside radius 2, or at the cap |
| EscapeTime.ExitStepIs | fractals/src/main.rs:120-123 | the first-escape property determines the stopping counter uniquely |
| EscapeTime.RustCountIsFirstEscape | fractals/src/main.rs:117-129 | the Rust result is at most the cap; a nonzero result is the first escape step; 0 exactly when the start point is outside or no point up to the cap escaped; cap 0 gives 0 |
| EscapeTime.PythonCountIsFirstEscape | fractals/compare_python/python_native.py:11-21 | the Python result is below a nonzero cap; a nonzero result is the first escape step; 0 exactly when the start is outside or no point before the cap escaped |
| EscapeTime.PythonVersusRust | fractals/compare_python/python_native.py:18-21 | the Python rule equals the Rust rule except where Rust reports the cap, which Python reports as 0 |
| EscapeTime.EscapeOnLastStep | fractals/src/main.rs:124-128 | a point escaping exactly at the cap gives the cap in Rust and 0 in Python |
| EscapeTime.OriginIsFixed | fractals/src/main.rs:121 | the Mandelbrot orbit of c = 0 stays at 0 |
| EscapeTime.MandelbrotOrigin | fractals/src/main.rs:362-366 | the Mandelbrot count of c = 0 is 0 for every cap, under both return rules |
| EscapeTime.MandelbrotTwoPlusTwoI | fractals/src/main.rs:117-129 | c = 2 + 2i escapes after one step: Rust gives 1; Python gives 1, or 0 when the cap is 1 |
| EscapeTime.ZeroStartRunsOnce | fractals/src/main.rs:118-120 | starting from 0 with a cap of at least 1, the loop runs at least one step |
| JuliaKernel.ComputeSuite | fractals/src/main.rs:67-79 | the Julia kernel returns the Rust count of the orbit of the pixel under z ↦ z² + (−0.8 + 0.156i) |
| BurningShipKernel.ComputeSuite | fractals/src/main.rs:89-105 | the Burning Ship kernel returns the Rust count of the orbit of 0 under z ↦ (abs-folded z)² + c |
| MandelbrotKernel.ComputeSuite | fractals/src/main.rs:117-129 | the Mandelbrot kernel returns the Rust count of the orbit of 0 under z ↦ z² + c |
| FractalRender.KernelCount | fractals/src/main.rs:67-129 | every kernel result is at most n_max; cap 0 gives 0; a nonzero result is the first escape step; a Julia start outside radius 2 gives 0 |
| FractalRender.MandelbrotAtOrigin | fractals/src/main.rs:362-366 | the Mandelbrot kernel at c = 0 returns 0 (the test uses cap 1000) |
| FractalRender.ComputeSuite | fractals/src/main.rs:316-321 | the kernel chosen by fractal name computes that family's count |
| FractalRender.RenderOnGrid | fractals/src/main.rs:34-53 | every cell of the band gets the kernel at its viewport pixel; no cell outside the band changes; a band of zero rows or zero columns writes nothing |
| Viewport.PixelEdges | fractals/src/main.rs:43-48 | row 0 and row n_rows − 1 lie on the upper and lower edges; column 0 and column n_columns − 1 on the left and right edges |
| Viewport.PixelColumn | fractals/src/main.rs:44-48 | the real part of a pixel depends only on its column and the horizontal extent |
| Viewport.PixelInStrip | fractals/src/main.rs:43-48 | a pixel of a viewport with top edge `top` and height h has the real part of any viewport with the same horizontal extent, and imaginary part top − r·h/(n_rows − 1) |
| Viewport.PixelCorners | fractals/src/main.rs:43-49 | pixel (0, 0) is the upper-left corner and pixel (n_rows − 1, n_columns − 1) the lower-right one |
| Viewport.PixelGrid | fractals/src/main.rs:43-48 | neighbouring columns are Δre apart and neighbouring rows Δim apart; a row shares its imaginary part and a column its real part |
| Bands.BandsCorners | fractals/src/main.rs:13-31 | n corner pairs; upper-left corners keep ul.re and lower-right corners lr.re; band i spans the imaginary parts ul.im − i·2/n down to ul.im − (i+1)·2/n; band 0 starts at ul |
| Bands.BandsTile | fractals/src/main.rs:18-29 | every band is 2/n high, each band's lower edge is the next band's upper edge, and the last band ends at ul.im − 2 |
| Bands.LastBandReachesCorner | fractals/src/main.rs:24-29 | the last lower-right corner equals lr exactly when the viewport is 2 high |
| Bands.SingleBand | fractals/src/main.rs:369-377 | one band over a viewport 2 high gives the viewport's own corners |
| Bands.FourBands | fractals/src/main.rs:379-394 | four bands over the Mandelbrot viewport give the eight corners of the test |
| RowPartition.ChunksMut | fractals/src/main.rs:292 | `chunks_mut(size)` yields ⌈len/size⌉ chunks |
| RowPartition.ChunksTile | fractals/src/main.rs:292 | the chunks are non-empty, at most `size` rows, contiguous, and cover rows 0..len |
| RowPartition.PartitionRows | fractals/src/main.rs:284-312 | a successful partition has one chunk per thread, and n_threads · k = n_rows with k ≥ 1 |
| RowPartition.PartitionRowsOutcome | fractals/src/main.rs:284-312 | the band split succeeds exactly when n_threads ≥ 1 divides n_rows with n_rows ≥ n_threads; otherwise the division, the chunk size or the corner index aborts; chunk i is rows [i·k, (i+1)·k) |
| RowPartition.ChunksCoverThreads | fractals/src/main.rs:292 | with n_threads ≥ 1 and k ≥ 1 there are at least n_threads chunks |
| RowPartition.RowInOneChunk | fractals/src/main.rs:292-312 | under a successful partition every row lies in exactly one chunk, chunk row / k |
| FractalRender.BandPixelPlace | fractals/src/main.rs:284-331 | a grid cell samples the viewport's column coordinate, and an imaginary part stepping down from its band's top by 2/n over k − 1 row gaps |
| FractalRender.BandPixelAt | fractals/src/main.rs:284-331 | the cell in row j of band b samples the viewport's column coordinate and the imaginary part b's top − j·(2/n)/(k − 1) |
| FractalRender.SeamRowsCoincide | fractals/src/main.rs:13-53 | the last row of a band and the first row of the next sample the same points |
| FractalRender.SingleBandIsViewport | fractals/src/main.rs:284-331 | with one thread and a viewport 2 high (as all three defaults are), the cells sample exactly the pixels of the whole viewport |
| FractalRender.BandPixelInBand | fractals/src/main.rs:310-331 | rows i·k .. (i+1)·k − 1 are sampled over corner pair i with k rows |
| FractalRender.DrawBand | fractals/src/main.rs:310-331 | drawing band i extends the drawn prefix by k rows and leaves the rest 0 |
| FractalRender.DrawBands | fractals/src/main.rs:310-331 | the band loop succeeds exactly when there are at most n_threads chunks, and then every band is drawn |
| FractalRender.Render | fractals/src/main.rs:284-341 | aborts exactly as the partition says, including partitions with one-row bands or one column that abort at the corner index; otherwise returns a fresh n_rows × n_columns grid whose every cell holds the kernel at its band pixel |
| Grayscale.MinMaxUnique | fractals/src/main.rs:161-168 | the minimum and maximum are determined by the grid |
| Grayscale.UniformExtremes | fractals/src/main.rs:161-168 | on a grid of equal cells the minimum and maximum are that value |
| Grayscale.FindMinMax | fractals/src/main.rs:161-168 | returns the least and greatest cell, or u32::MAX and 0 when there is no cell |
| Grayscale.Ramp | fractals/src/main.rs:179 | the scaled position of a count lies in [0, 255] |
| Grayscale.IntensityEnds | fractals/src/main.rs:174-183 | the minimum maps to 0 and the maximum to 255, swapped when inverted |
| Grayscale.IntensityInvert | fractals/src/main.rs:181-183 | inverting replaces every pixel value s by 255 − s |
| Grayscale.UniformIntensity | fractals/src/main.rs:174-177 | a flat grid becomes all 0, or all 255 when inverted |
| Grayscale.IntensityMonotone | fractals/src/main.rs:174-183 | a larger count never gets a darker pixel, or a lighter one when inverted |
| Grayscale.WriteScaledGrayscale | fractals/src/main.rs:152-187 | the image is rows × (length of row 0) with cell (y, x) = the intensity of data[y][x], 0 past a short row; an empty grid or a row longer than row 0 aborts |
| PythonNative.ComputeMandelbrot | fractals/compare_python/python_native.py:11-21 | returns the Python count of the orbit of 0 under z ↦ z² + c |
| PythonNative.ComputeJulia | fractals/compare_python/python_native.py:23-32 | returns the Python count of the orbit of z under z ↦ z² + c |
| PythonNative.ComputeBurningShip | fractals/compare_python/python_native.py:34-44 | returns the Python count of the orbit of 0 under z ↦ (abs-folded z)² + c |
| PythonNative.SuiteBounds | fractals/compare_python/python_native.py:11-44 | every Python kernel returns a value below a nonzero cap, 0 for cap 0; a Julia start outside radius 2 gives 0; from 0 the loop runs at least once |
| PythonNative.ComputeSuite | fractals/compare_python/python_native.py:114-123 | the kernel passed as `compute_suite` computes that family's Python count |
| PythonNative.RenderOnGrid | fractals/compare_python/python_native.py:47-65 | a single row or column raises `ZeroDivisionError`; otherwise it returns a fresh n_rows × n_columns array whose cell (r, c) is the kernel at pixel (r, c) |
| PythonNative.CornersThreads | fractals/compare_python/python_native.py:67-84 | there is one band per thread |
| PythonNative.ComputeCornersThreads | fractals/compare_python/python_native.py:67-84 | zero threads raise `ZeroDivisionError`; otherwise the list built band by band is `CornersThreads` |
| PythonNative.EdgeStep | fractals/compare_python/python_native.py:76-82 | consecutive band edges are (ul.im − lr.im)/n_threads apart |
| PythonNative.EdgeLast | fractals/compare_python/python_native.py:76-80 | the n_threads-th band edge is lr.im |
| PythonNative.CornersThreadsEnds | fractals/compare_python/python_native.py:77-83 | the first band starts at ul and the last ends at lr; starts keep ul.re, ends lr.re |
| PythonNative.CornersThreadsAdjacent | fractals/compare_python/python_native.py:78-82 | each band ends at the height where the next one starts |
| PythonNative.CornersThreadsHeight | fractals/compare_python/python_native.py:76-82 | every band, the last one included, is (ul.im − lr.im)/n_threads high |
| PythonNative.CornersThreadsRows | fractals/compare_python/python_native.py:75-83 | every band has n_rows // n_threads rows and n_columns columns; together they hold n_rows − n_rows % n_threads rows |
| LinkedLists.Index | recursive_structures/src/datastructures.rs:12-24 | indexing succeeds exactly when index < length, and returns the index-th value |
| LinkedLists.IndexExample | recursive_structures/src/datastructures.rs:4-7 | the list 6 → 5 → 4 → 3 holds [6, 5, 4, 3], and element 2 is 4 |
| LinkedLists.Fmt | recursive_structures/src/datastructures.rs:46-58 | the string built node by node is `Display` of the list |
| LinkedLists.Shown | recursive_structures/src/datastructures.rs:51-53 | shows each value in order |
| LinkedLists.PiecesJoin | recursive_structures/src/datastructures.rs:48-56 | the nodes' pieces are the values joined by ", " and closed by "]" |
| LinkedLists.DisplayShape | recursive_structures/src/datastructures.rs:46-58 | the empty list shows as "[", any other list as "[" + values joined by ", " + "]" |
| LinkedLists.DisplayExample | recursive_structures/src/datastructures.rs:46-58 | the list 6 → 5 → 4 → 3 shows as "[6, 5, 4, 3]" |
| LinkedLists.PiecesOpen | recursive_structures/src/datastructures.rs:50-56 | when no value shows a "[", the nodes' pieces hold none |
| LinkedLists.PiecesClose | recursive_structures/src/datastructures.rs:50-56 | when no value shows a "]", the pieces hold exactly one for a non-empty list and none for the empty one |
| LinkedLists.PiecesBrackets | recursive_structures/src/datastructures.rs:50-56 | when no value shows a bracket, the pieces hold no "[" and one "]" for a non-empty list |
| LinkedLists.DisplayBrackets | recursive_structures/src/datastructures.rs:46-58 | when no value shows a bracket, the text starts with its only "[", and ends with "]" exactly for a non-empty list |
| PrimitiveTypes3.AsI32 | rustlings/exercises/primitive_types/primitive_types3.rs:14 | `as i32` gives a value in the i32 range congruent to the index modulo 2³² |
| PrimitiveTypes3.AsI32Exact | rustlings/exercises/primitive_types/primitive_types3.rs:14 | an index up to i32::MAX casts unchanged; 2³¹ wraps to i32::MIN |
| PrimitiveTypes3.FillAndCheck | rustlings/exercises/primitive_types/primitive_types3.rs:10-23 | the array has 1000 elements, element i is i, and the length check takes the "big array" branch; the returned message names that branch by the text it prints |

## Left out

- Threads: the bands of `main` are drawn one after the other. `crossbeam` scoped threads and the joblib workers write disjoint rows, so the order does not change the grid. Thread spawning, joining and the Python `vstack` of band results are not modelled.
- Command-line parsing, timing, progress bars, `println!`/`print` output, and saving the image or the PNG file are I/O and are not modelled.
- Floating point: coordinates, the kernels' arithmetic and the scaling are exact reals; IEEE rounding is not modelled. In the program the sampled points are already rounded (`(c as f64) * delta_re`, `(i as f64) * 2.0 / (n_threads as f64)`), the Julia constant −0.8 + 0.156i has no exact `f64` value, and `pow(2.)` goes through the polar form. Each iteration of z ↦ z² + c magnifies these differences, so near the boundary of the set a pixel's escape count in the program can differ from the model's by any amount, and with it the grid's minimum and maximum and every scaled pixel. What does not depend on rounding: the bounds on the loop count, the 0 convention for points that do not escape, the band and chunk partition, and the normaliser mapping the minimum to 0 and the maximum to 255.
- FractalRender.RenderOnGrid: excludes exactly one row and exactly one column. There the program divides by zero and samples NaN points (0 · ∞), for which every kernel returns 0. NaN is not modelled. Zero rows or zero columns are handled: nothing is written.
- FractalRender.Render: excludes a successful partition with band height k = 1 or with one column, for the same NaN reason. Partitions that abort are all handled, those with k = 1 or one column included: they return the partition's error.
- ComplexPlane.Square: `pow(2.)` in the Burning Ship and Mandelbrot kernels goes through the polar form in the `num` crate. It is modelled as z·z, its exact value.
- JuliaKernel.ComputeSuite, BurningShipKernel.ComputeSuite, MandelbrotKernel.ComputeSuite: the cap is an unbounded `nat`, not a `u32`. The counter never exceeds the cap, so no `u32` overflow arises.
- PythonNative.RenderOnGrid: requires max_iter ≤ 256. A larger count stored into the `uint8` array wraps or raises, depending on the NumPy version.
- PythonNative.ComputeMandelbrot, PythonNative.ComputeJulia, PythonNative.ComputeBurningShip: max_iter is a `nat`. A negative Python `max_iter` is not modelled.
- The `__main__` block of `python_native.py` is not modelled: argument parsing, the per-fractal corners and the joblib dispatch. The `python_numpy`/JAX variants are not part of this model either.
- Grayscale.WriteScaledGrayscale: the `u32` casts of width and height are not modelled; the grid dimensions are unbounded naturals. The grid's cells are required to fit a `u32`, as the `Vec<Vec<u32>>` type guarantees.
- LinkedLists.Fmt, LinkedLists.Display: the element's own `Display` is the parameter `show`. The `Formatter` and its error result are not modelled.
- `recursive_structures/src/main.rs`, the driver of the list exercise, is not part of this model.
- PrimitiveTypes3.FillAndCheck: `println!` itself is not modelled; the returned message stands for the branch the length check takes. The "Meh…" message and the panic of the short-array branch are unreachable for a 1000-element array, so that branch is only shown unreachable.
