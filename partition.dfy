/**
 * The row partition of the Rust renderer's `main`: the band height is
 * k = n_rows / n_threads, the grid is cut by `chunks_mut(k)`, and chunk i is
 * drawn with the i-th pair of band corners.
 */
module RowPartition {
  import opened Outcomes

  /** The half-open row range [start, end). */
  datatype Range = Range(start: nat, end: nat)

  /** How the Rust program aborts before any band is drawn in full. */
  datatype RenderError =
    | DivisionByZero          // n_rows / n_threads with n_threads == 0
    | ZeroChunkSize           // chunks_mut(0)
    | CornerIndexOutOfBounds  // a chunk with no corner pair: upper_left_vec[i] with i == n_threads

  function Min(a: nat, b: nat): nat {
    if a <= b then a else b
  }

  /** Number of chunks `chunks_mut(size)` yields over `len` rows: len / size rounded up. */
  function ChunkCount(len: nat, size: nat): nat
    requires size >= 1
  {
    (len + size - 1) / size
  }

  /** The slices of `chunks_mut(size)`: consecutive runs of `size` rows, the last one possibly shorter. */
  function ChunksMut(len: nat, size: nat): (r: seq<Range>)
    requires size >= 1
    ensures |r| == ChunkCount(len, size)
  {
    seq(ChunkCount(len, size), i requires 0 <= i => Range(i * size, Min((i + 1) * size, len)))
  }

  lemma MulMono(x: int, y: int, b: int)
    ensures x <= y && b >= 0 ==> x * b <= y * b
  {
    if x <= y && b >= 0 {
      assert y * b == x * b + (y - x) * b;
    }
  }

  lemma DivUnique(a: int, b: int, q: int)
    requires b > 0 && q * b <= a < (q + 1) * b
    ensures a / b == q
  {
    var d := a / b;
    assert a == d * b + a % b;
    MulMono(d + 1, q, b);
    MulMono(q + 1, d, b);
    assert (d + 1) * b == d * b + b;
    assert (q + 1) * b == q * b + b;
  }

  /** The chunk count is the least number of chunks whose rows reach `len`. */
  lemma ChunkCountBounds(len: nat, size: nat)
    requires size >= 1
    ensures ChunkCount(len, size) * size >= len
    ensures ChunkCount(len, size) >= 1 ==> (ChunkCount(len, size) - 1) * size < len
  {
    var m := ChunkCount(len, size);
    assert len + size - 1 == m * size + (len + size - 1) % size;
    assert (m - 1) * size == m * size - size;
  }

  /**
   * `chunks_mut` cuts the rows into non-empty consecutive slices of at most
   * `size` rows, starting at row 0 and ending at row `len`.
   */
  lemma {:induction false} ChunksTile(len: nat, size: nat)
    requires size >= 1
    ensures var r := ChunksMut(len, size);
      && (|r| == 0 <==> len == 0)
      && (forall i :: 0 <= i < |r| ==> r[i].start < r[i].end <= len && r[i].end - r[i].start <= size)
      && (|r| >= 1 ==> r[0].start == 0 && r[|r| - 1].end == len)
      && (forall i :: 0 <= i < |r| - 1 ==> r[i].end == r[i + 1].start)
  {
    var r := ChunksMut(len, size);
    var m := |r|;
    ChunkCountBounds(len, size);
    forall i | 0 <= i < m
      ensures r[i].start < r[i].end <= len && r[i].end - r[i].start <= size
    {
      MulMono(i, m - 1, size);
      assert (i + 1) * size == i * size + size;
    }
    if m >= 1 {
      MulMono(m, m, size);
      assert m * size == (m - 1) * size + size;
    }
    forall i | 0 <= i < m - 1
      ensures r[i].end == r[i + 1].start
    {
      MulMono(i + 1, m - 1, size);
    }
  }

  /** When the chunks do not outnumber the threads, k · n_threads is every row. */
  lemma ExactChunks(nRows: nat, nThreads: nat)
    requires nThreads >= 1 && nRows / nThreads >= 1
    requires ChunkCount(nRows, nRows / nThreads) <= nThreads
    ensures nRows == nThreads * (nRows / nThreads)
  {
    var k := nRows / nThreads;
    assert nRows == k * nThreads + nRows % nThreads;
    ChunkCountBounds(nRows, k);
    MulMono(ChunkCount(nRows, k), nThreads, k);
  }

  /** The chunks the program draws, or the way it aborts. */
  function PartitionRows(nRows: nat, nThreads: nat): (r: Result<seq<Range>, RenderError>)
    ensures r.Ok? ==> |r.value| == nThreads
    ensures r.Ok? ==> nThreads >= 1 && nRows / nThreads >= 1 && nRows == nThreads * (nRows / nThreads)
  {
    if nThreads == 0 then Err(DivisionByZero)
    else
      var k := nRows / nThreads;
      if k == 0 then Err(ZeroChunkSize)
      else if ChunkCount(nRows, k) > nThreads then Err(CornerIndexOutOfBounds)
      else
        ChunksCoverThreads(nRows, nThreads);
        ExactChunks(nRows, nThreads);
        Ok(ChunksMut(nRows, k))
  }

  /** There are never fewer chunks than threads, since k · n_threads rows fit in the grid. */
  lemma ChunksCoverThreads(nRows: nat, nThreads: nat)
    requires nThreads >= 1 && nRows / nThreads >= 1
    ensures ChunkCount(nRows, nRows / nThreads) >= nThreads
  {
    var k := nRows / nThreads;
    assert nRows == k * nThreads + nRows % nThreads;
    ChunkCountBounds(nRows, k);
    MulMono(ChunkCount(nRows, k) + 1, nThreads, k);
    assert (ChunkCount(nRows, k) + 1) * k == ChunkCount(nRows, k) * k + k;
  }

  /**
   * The partition succeeds exactly when n_threads divides n_rows (and is at
   * most n_rows); then there is one chunk of k rows per thread, chunk i being
   * rows [i·k, (i+1)·k). Otherwise the error says which step aborts.
   */
  lemma PartitionRowsOutcome(nRows: nat, nThreads: nat)
    ensures var p := PartitionRows(nRows, nThreads);
      && (p.Ok? <==> nThreads >= 1 && nRows >= nThreads && nRows % nThreads == 0)
      && (nThreads == 0 ==> p == Err(DivisionByZero))
      && (1 <= nThreads && nRows < nThreads ==> p == Err(ZeroChunkSize))
      && (1 <= nThreads <= nRows && nRows % nThreads != 0 ==> p == Err(CornerIndexOutOfBounds))
      && (p.Ok? ==> |p.value| == nThreads)
      && (p.Ok? ==> forall i :: 0 <= i < nThreads ==>
            p.value[i] == Range(i * (nRows / nThreads), (i + 1) * (nRows / nThreads)))
  {
    if nThreads >= 1 {
      var k := nRows / nThreads;
      var q := nThreads;
      assert nRows == k * q + nRows % q;
      if nRows < q {
        DivUnique(nRows, q, 0);
      } else {
        MulMono(1, k, q);
        if k == 0 {
          DivUnique(nRows, q, 0);
        }
        assert k >= 1 by {
          MulMono(k + 1, 1, q);
          assert (k + 1) * q == k * q + q;
        }
        ChunkCountBounds(nRows, k);
        var m := ChunkCount(nRows, k);
        if nRows % q == 0 {
          assert q * k <= nRows + k - 1 < (q + 1) * k;
          DivUnique(nRows + k - 1, k, q);
          forall i | 0 <= i < q
            ensures ChunksMut(nRows, k)[i] == Range(i * k, (i + 1) * k)
          {
            MulMono(i + 1, q, k);
          }
        } else {
          MulMono(m, q, k);
          assert m > q;
        }
      }
    }
  }

  /** Under a successful partition every row lies in exactly one chunk, chunk row / k. */
  lemma RowInOneChunk(nRows: nat, nThreads: nat, row: nat)
    requires PartitionRows(nRows, nThreads).Ok?
    requires row < nRows
    ensures row / (nRows / nThreads) < nThreads
    ensures forall j :: 0 <= j < nThreads ==>
      ((PartitionRows(nRows, nThreads).value[j].start <= row < PartitionRows(nRows, nThreads).value[j].end)
       <==> j == row / (nRows / nThreads))
  {
    var k := nRows / nThreads;
    PartitionedRows(nRows, nThreads);
    RowBand(row, k, nThreads);
    var chunks := PartitionRows(nRows, nThreads).value;
    forall j | 0 <= j < nThreads
      ensures chunks[j].start <= row < chunks[j].end <==> j == row / k
    {
      ChunkOfRow(nRows, nThreads, j, row);
    }
  }

  lemma PartitionedRows(nRows: nat, nThreads: nat)
    requires PartitionRows(nRows, nThreads).Ok?
    ensures nThreads >= 1 && nRows / nThreads >= 1
    ensures nRows == nThreads * (nRows / nThreads)
  {
    PartitionRowsOutcome(nRows, nThreads);
    assert nRows == (nRows / nThreads) * nThreads + nRows % nThreads;
  }

  lemma ChunkOfRow(nRows: nat, nThreads: nat, j: nat, row: nat)
    requires PartitionRows(nRows, nThreads).Ok?
    requires j < nThreads
    ensures var c := PartitionRows(nRows, nThreads).value[j];
      c.start <= row < c.end <==> j == row / (nRows / nThreads)
  {
    PartitionRowsOutcome(nRows, nThreads);
    PartitionedRows(nRows, nThreads);
    var k := nRows / nThreads;
    var c := PartitionRows(nRows, nThreads).value[j];
    assert c == Range(j * k, (j + 1) * k);
    if j * k <= row < (j + 1) * k {
      DivUnique(row, k, j);
    } else {
      var q := row / k;
      RowBand(row, k, q + 1);
      assert q * k <= row < (q + 1) * k;
      assert q != j;
    }
  }

  /** A row below n·k lies in band row / k, between that band's first and last rows. */
  lemma RowBand(row: nat, k: nat, n: nat)
    requires k >= 1
    ensures row < n * k ==> row / k < n
    ensures (row / k) * k <= row < (row / k + 1) * k
  {
    var i := row / k;
    assert row == i * k + row % k;
    assert (i + 1) * k == i * k + k;
    MulMono(n, i, k);
  }
}
