// The decision logic of `mssplit` (`MsSplitApp`): which main-table rows a
// split keeps, how kept rows are grouped into contiguous runs for copying,
// how the split parameters are validated, how buckets and tiles are sized,
// and how flagged channels are averaged. Table I/O and the complex averaging
// of visibilities are not modelled; channels appear as flags and counts.
// `uInt` arithmetic is written out modulo 2^32.

module MsSplit {
  import opened Common

  function Pow2(n: nat): (r: nat)
    ensures r >= 1
  {
    if n == 0 then 1 else 2 * Pow2(n - 1)
  }

  /** `std::numeric_limits<double>::min()`: the smallest positive normal double. */
  const DblMin: real := 1.0 / (Pow2(1022) as real)

  /** `std::numeric_limits<double>::max()`. */
  const DblMax: real := ((Pow2(53) - 1) * Pow2(971)) as real

  // ------------------------------------------------------------- row filter

  /** The row selection given on the command line. Times are in the MS time unit. */
  datatype Filters = Filters(beams: set<nat>, scans: set<nat>, fieldIds: set<nat>,
                             timeBegin: real, timeEnd: real)

  /** The filters of a freshly constructed application: nothing selected. */
  const NoFilters: Filters := Filters({}, {}, {}, DblMin, DblMax)

  /** The main-table columns the filter reads. */
  datatype MainRow = MainRow(scan: nat, fieldId: nat, feed1: nat, feed2: nat, time: real)

  /** `rowFiltersExist`. */
  predicate RowFiltersExist(f: Filters)
  {
    f.beams != {} || f.scans != {} || f.fieldIds != {} || f.timeBegin > DblMin || f.timeEnd < DblMax
  }

  /** `rowIsFiltered`: true when the row is dropped. */
  function RowIsFiltered(f: Filters, r: MainRow): (dropped: bool)
    ensures !RowFiltersExist(f) ==> !dropped
    ensures RowFiltersExist(f) ==>
              (dropped <==> r.time < f.timeBegin || r.time > f.timeEnd
                            || (f.scans != {} && r.scan !in f.scans)
                            || (f.fieldIds != {} && r.fieldId !in f.fieldIds)
                            || (f.beams != {} && r.feed1 !in f.beams && r.feed2 !in f.beams))
  {
    if !RowFiltersExist(f) then false
    else if r.time < f.timeBegin || r.time > f.timeEnd then true
    else if f.scans != {} && r.scan !in f.scans then true
    else if f.fieldIds != {} && r.fieldId !in f.fieldIds then true
    else if f.beams != {} && r.feed1 !in f.beams && r.feed2 !in f.beams then true
    else false
  }

  /** The default filters select nothing, so no row is dropped. */
  lemma NoFiltersKeepEverything(r: MainRow)
    ensures !RowFiltersExist(NoFilters) && !RowIsFiltered(NoFilters, r)
  {
  }

  /** A row is never dropped for its beam when either of its feeds is selected. */
  lemma EitherFeedSelects(f: Filters, r: MainRow)
    requires r.feed1 in f.beams || r.feed2 in f.beams
    requires f.timeBegin <= r.time <= f.timeEnd
    requires f.scans == {} && f.fieldIds == {}
    ensures !RowIsFiltered(f, r)
  {
  }

  predicate StrictlyIncreasing(s: seq<nat>)
  {
    forall i, j :: 0 <= i < j < |s| ==> s[i] < s[j]
  }

  /** The first loop of `getRowsToKeep`: the numbers of the rows the filter keeps, ascending. */
  method KeptRows(f: Filters, rows: seq<MainRow>) returns (kept: seq<nat>)
    ensures StrictlyIncreasing(kept)
    ensures forall i :: 0 <= i < |kept| ==> kept[i] < |rows| && !RowIsFiltered(f, rows[kept[i]])
    ensures forall r :: 0 <= r < |rows| && !RowIsFiltered(f, rows[r]) ==> r in kept
  {
    kept := [];
    var row := 0;
    while row < |rows|
      invariant 0 <= row <= |rows|
      invariant StrictlyIncreasing(kept)
      invariant forall i :: 0 <= i < |kept| ==> kept[i] < row && !RowIsFiltered(f, rows[kept[i]])
      invariant forall r :: 0 <= r < row && !RowIsFiltered(f, rows[r]) ==> r in kept
    {
      if !RowIsFiltered(f, rows[row]) {
        kept := kept + [row];
      }
      row := row + 1;
    }
  }

  // ------------------------------------------------------------- row runs

  /** `lo, lo+1, ..., lo+n-1`. */
  function Interval(lo: nat, n: nat): (s: seq<nat>)
    ensures |s| == n && forall i :: 0 <= i < n ==> s[i] == lo + i
  {
    seq(n, i requires 0 <= i < n => lo + i)
  }

  /** A run of `len` contiguous rows starting at `start` (one `itsMapOfRows` entry). */
  datatype Run = Run(start: nat, len: nat)

  /** The rows a sequence of runs covers, in order. */
  function Expand(runs: seq<Run>): seq<nat>
  {
    if runs == [] then []
    else Expand(runs[..|runs| - 1]) + Interval(runs[|runs| - 1].start, runs[|runs| - 1].len)
  }

  /**
   * The longest run `getRowsToKeep` builds. The bound is compared after a cast
   * of `maxSimultaneousRows` to `int`; a bound below 1 still gives runs of one row.
   */
  function Cap(maxRows: nat): (c: nat)
    requires maxRows < TwoTo32
    ensures c >= 1
  {
    if AsInt32(maxRows) >= 1 then AsInt32(maxRows) else 1
  }

  predicate RunsBounded(runs: seq<Run>, cap: nat)
  {
    forall j :: 0 <= j < |runs| ==> 1 <= runs[j].len <= cap
  }

  /** Runs are ordered and do not overlap. */
  predicate RunsAscending(runs: seq<Run>)
  {
    forall j, k :: 0 <= j < k < |runs| ==> runs[j].start + runs[j].len <= runs[k].start
  }

  /** A run ends before the next one only because of a gap or because it is full. */
  predicate RunsMaximal(runs: seq<Run>, cap: nat)
  {
    forall j :: 0 <= j < |runs| - 1 ==>
      runs[j].len == cap || runs[j].start + runs[j].len != runs[j + 1].start
  }

  lemma ExpandSnoc(runs: seq<Run>, r: Run)
    ensures Expand(runs + [r]) == Expand(runs) + Interval(r.start, r.len)
  {
    assert (runs + [r])[..|runs|] == runs;
  }

  /** The state of the grouping loop after the first `i + 1` kept rows. */
  predicate Grouped(kept: seq<nat>, i: nat, runs: seq<Run>, lastGoodRow: nat, nGood: nat, cap: nat)
  {
    i < |kept| && 1 <= nGood <= cap
    && Expand(runs) + Interval(lastGoodRow, nGood) == kept[..i + 1]
    && lastGoodRow + nGood - 1 == kept[i]
    && RunsBounded(runs + [Run(lastGoodRow, nGood)], cap)
    && RunsAscending(runs + [Run(lastGoodRow, nGood)])
    && RunsMaximal(runs + [Run(lastGoodRow, nGood)], cap)
  }

  /** Only the start of the last run matters to the runs before it, so its length may change. */
  lemma ResizeLast(runs: seq<Run>, s: nat, n: nat, m: nat, cap: nat)
    requires RunsBounded(runs + [Run(s, n)], cap) && RunsAscending(runs + [Run(s, n)])
    requires RunsMaximal(runs + [Run(s, n)], cap) && 1 <= m <= cap
    ensures RunsBounded(runs + [Run(s, m)], cap) && RunsAscending(runs + [Run(s, m)])
    ensures RunsMaximal(runs + [Run(s, m)], cap)
  {
    var a := runs + [Run(s, n)];
    var b := runs + [Run(s, m)];
    assert forall j :: 0 <= j < |runs| ==> a[j] == b[j];
    assert a[|runs|].start == b[|runs|].start;
  }

  /** The next kept row extends the open run. */
  lemma GroupedExtend(kept: seq<nat>, i: nat, runs: seq<Run>, lastGoodRow: nat, nGood: nat, cap: nat)
    requires Grouped(kept, i, runs, lastGoodRow, nGood, cap)
    requires i + 1 < |kept| && kept[i + 1] == kept[i] + 1 && nGood < cap
    ensures Grouped(kept, i + 1, runs, lastGoodRow, nGood + 1, cap)
  {
    assert kept[..i + 2] == kept[..i + 1] + [kept[i + 1]];
    assert Interval(lastGoodRow, nGood + 1) == Interval(lastGoodRow, nGood) + [kept[i + 1]];
    ResizeLast(runs, lastGoodRow, nGood, nGood + 1, cap);
  }

  lemma SingletonStep(kept: seq<nat>, i: nat, prefix: seq<nat>)
    requires i + 1 < |kept| && prefix == kept[..i + 1]
    ensures prefix + Interval(kept[i + 1], 1) == kept[..i + 2]
  {
    assert kept[..i + 2] == kept[..i + 1] + [kept[i + 1]];
    assert Interval(kept[i + 1], 1) == [kept[i + 1]];
  }

  /** Appending a run after a gap keeps the runs ascending. */
  lemma AscendingSnoc(runs: seq<Run>, r: Run)
    requires RunsAscending(runs)
    requires |runs| > 0 ==> runs[|runs| - 1].start + runs[|runs| - 1].len <= r.start
    ensures RunsAscending(runs + [r])
  {
    var b := runs + [r];
    forall j, k | 0 <= j < k < |b| ensures b[j].start + b[j].len <= b[k].start {
      if k == |runs| {
        assert b[j].start + b[j].len <= runs[|runs| - 1].start + runs[|runs| - 1].len by {
          if j < |runs| - 1 { assert b[j] == runs[j] && runs[|runs| - 1] == b[|runs| - 1]; }
        }
      } else {
        assert b[j] == runs[j] && b[k] == runs[k];
      }
    }
  }

  /** Appending a run of allowed length keeps every run bounded. */
  lemma BoundedSnoc(runs: seq<Run>, r: Run, cap: nat)
    requires RunsBounded(runs, cap) && 1 <= r.len <= cap
    ensures RunsBounded(runs + [r], cap)
  {
    var b := runs + [r];
    assert forall j :: 0 <= j < |runs| ==> b[j] == runs[j];
  }

  /** Appending a run after a full run or a gap keeps the runs maximal. */
  lemma MaximalSnoc(runs: seq<Run>, r: Run, cap: nat)
    requires RunsMaximal(runs, cap)
    requires |runs| > 0 ==> runs[|runs| - 1].len == cap || runs[|runs| - 1].start + runs[|runs| - 1].len != r.start
    ensures RunsMaximal(runs + [r], cap)
  {
    var b := runs + [r];
    assert forall j :: 0 <= j < |runs| ==> b[j] == runs[j];
  }

  /** The next kept row closes the open run and starts a new one. */
  lemma GroupedClose(kept: seq<nat>, i: nat, runs: seq<Run>, lastGoodRow: nat, nGood: nat, cap: nat)
    requires Grouped(kept, i, runs, lastGoodRow, nGood, cap) && StrictlyIncreasing(kept)
    requires i + 1 < |kept| && (kept[i + 1] != kept[i] + 1 || nGood == cap)
    ensures Grouped(kept, i + 1, runs + [Run(lastGoodRow, nGood)], kept[i + 1], 1, cap)
  {
    var a := runs + [Run(lastGoodRow, nGood)];
    var next := Run(kept[i + 1], 1);
    ExpandSnoc(runs, Run(lastGoodRow, nGood));
    SingletonStep(kept, i, Expand(a));
    assert a[|a| - 1] == Run(lastGoodRow, nGood);
    BoundedSnoc(a, next, cap);
    assert kept[i] < kept[i + 1];
    AscendingSnoc(a, next);
    MaximalSnoc(a, next, cap);
  }

  lemma GroupedStart(kept: seq<nat>, cap: nat)
    requires |kept| > 0 && cap >= 1
    ensures Grouped(kept, 0, [], kept[0], 1, cap)
  {
    assert Interval(kept[0], 1) == kept[..1];
    assert Expand([]) == [];
  }

  /** When every kept row has been seen, closing the open run gives the whole selection. */
  lemma GroupedDone(kept: seq<nat>, runs: seq<Run>, lastGoodRow: nat, nGood: nat, cap: nat)
    requires |kept| > 0 && Grouped(kept, |kept| - 1, runs, lastGoodRow, nGood, cap)
    ensures var all := runs + [Run(lastGoodRow, nGood)];
            Expand(all) == kept && RunsBounded(all, cap) && RunsAscending(all) && RunsMaximal(all, cap)
  {
    ExpandSnoc(runs, Run(lastGoodRow, nGood));
    assert kept[..|kept|] == kept;
  }

  /**
   * The grouping loop of `getRowsToKeep`. The C++ dereferences the first kept
   * row before its assertion that one exists; an empty selection is an error here.
   */
  method GetRowsToKeep(kept: seq<nat>, maxRows: nat) returns (r: Result<seq<Run>>)
    requires StrictlyIncreasing(kept) && maxRows < TwoTo32
    ensures r.Err? <==> kept == []
    ensures r.Ok? ==> Expand(r.value) == kept
    ensures r.Ok? ==> RunsBounded(r.value, Cap(maxRows)) && RunsAscending(r.value)
                      && RunsMaximal(r.value, Cap(maxRows))
  {
    if |kept| == 0 {
      return Err("no rows selected");
    }
    var cap := Cap(maxRows);
    var runs: seq<Run> := [];
    var lastGoodRow: nat := kept[0];
    var nGood: nat := 1;
    var i := 0;
    GroupedStart(kept, cap);
    while i < |kept| - 1
      invariant Grouped(kept, i, runs, lastGoodRow, nGood, cap)
    {
      if kept[i + 1] == kept[i] + 1 && nGood < AsInt32(maxRows) {
        assert nGood < cap;
        GroupedExtend(kept, i, runs, lastGoodRow, nGood, cap);
        nGood := nGood + 1;
      } else {
        GroupedClose(kept, i, runs, lastGoodRow, nGood, cap);
        runs := runs + [Run(lastGoodRow, nGood)];
        nGood := 1;
        lastGoodRow := kept[i + 1];
      }
      i := i + 1;
    }
    GroupedDone(kept, runs, lastGoodRow, nGood, cap);
    return Ok(runs + [Run(lastGoodRow, nGood)]);
  }

  /** The number of rows a sequence of runs copies. */
  function RowsCopied(runs: seq<Run>): (n: nat)
    ensures n == |Expand(runs)|
  {
    if runs == [] then 0 else RowsCopied(runs[..|runs| - 1]) + runs[|runs| - 1].len
  }

  /**
   * Without filters, `splitMainTable` copies chunks of
   * `min(maxSimultaneousRows, nRows - row)` rows until all rows are copied.
   * `maxSimultaneousRows` is at least 1 by construction.
   */
  method UnfilteredChunks(nRows: nat, maxRows: nat) returns (runs: seq<Run>)
    requires maxRows >= 1
    ensures Expand(runs) == Interval(0, nRows)
    ensures RunsBounded(runs, maxRows) && RunsAscending(runs)
    ensures forall j :: 0 <= j < |runs| - 1 ==> runs[j].len == maxRows
  {
    runs := [];
    var row := 0;
    while row < nRows
      invariant Chunked(runs, row, nRows, maxRows)
    {
      var n := if maxRows < nRows - row then maxRows else nRows - row;
      ChunkStep(runs, row, n, nRows, maxRows);
      runs := runs + [Run(row, n)];
      row := row + n;
    }
  }

  /** The state of the unfiltered copy loop once the rows below `row` are copied. */
  predicate Chunked(runs: seq<Run>, row: nat, nRows: nat, maxRows: nat)
  {
    row <= nRows
    && Expand(runs) == Interval(0, row)
    && RunsBounded(runs, maxRows) && RunsAscending(runs)
    && (|runs| > 0 ==> runs[|runs| - 1].start + runs[|runs| - 1].len == row)
    && (forall j :: 0 <= j < |runs| - 1 ==> runs[j].len == maxRows)
    && (|runs| > 0 && row < nRows ==> runs[|runs| - 1].len == maxRows)
  }

  /** One chunk of `min(maxSimultaneousRows, nRows - row)` rows keeps the loop state. */
  lemma ChunkStep(runs: seq<Run>, row: nat, n: nat, nRows: nat, maxRows: nat)
    requires Chunked(runs, row, nRows, maxRows) && row < nRows && maxRows >= 1
    requires n == if maxRows < nRows - row then maxRows else nRows - row
    ensures Chunked(runs + [Run(row, n)], row + n, nRows, maxRows)
  {
    var b := runs + [Run(row, n)];
    ExpandSnoc(runs, Run(row, n));
    assert Interval(0, row + n) == Interval(0, row) + Interval(row, n);
    AscendingSnoc(runs, Run(row, n));
    BoundedSnoc(runs, Run(row, n), maxRows);
    assert forall j :: 0 <= j < |runs| ==> b[j] == runs[j];
  }

  // ------------------------------------------------------- split parameters

  /** `endChan - startChan + 1` in `uInt` arithmetic. */
  function NChanIn(startChan: nat, endChan: nat): (n: nat)
    ensures n < TwoTo32
    ensures startChan <= endChan + 1 && endChan - startChan + 1 < TwoTo32 ==> n == endChan - startChan + 1
  {
    U32(endChan - startChan + 1)
  }

  /** The checks `split` makes before creating the output, as written (return code 1 is `Err`). */
  function ValidateSplitAsWritten(startChan: nat, endChan: nat, width: nat, totChanIn: nat): (r: Result<nat>)
    requires startChan < TwoTo32 && endChan < TwoTo32 && width < TwoTo32
    ensures r.Ok? <==> width >= 1 && NChanIn(startChan, endChan) % width == 0
                       && startChan >= 1 && endChan <= totChanIn
    ensures r.Ok? ==> r.value == NChanIn(startChan, endChan)
  {
    var nChanIn := NChanIn(startChan, endChan);
    if width < 1 || nChanIn % width != 0 then Err("Width must equally divide the channel range")
    else if startChan < 1 || endChan > totChanIn then Err("Input channel range is inconsistent with input spectra")
    else Ok(nChanIn)
  }

  /**
   * The checks with the missing one added: `splitMainTable` asserts
   * `endChan >= startChan`, so a reversed range is refused up front.
   */
  function ValidateSplit(startChan: nat, endChan: nat, width: nat, totChanIn: nat): (r: Result<nat>)
    requires startChan < TwoTo32 && endChan < TwoTo32 && width < TwoTo32
    ensures r.Ok? <==> ValidateSplitAsWritten(startChan, endChan, width, totChanIn).Ok? && startChan <= endChan
    ensures r.Ok? ==> r.value == endChan - startChan + 1 && r.value >= 1 && r.value / width >= 1
    ensures r.Ok? ==> startChan - 1 + r.value <= totChanIn
  {
    match ValidateSplitAsWritten(startChan, endChan, width, totChanIn)
    case Err(m) => Err(m)
    case Ok(n) =>
      if endChan < startChan then Err("Input channel range is empty") else Ok(n)
  }

  /** The largest bucket `split` allows: a row of tiles fits in the buffer, but never below 8192. */
  function MaxBucketSize(bufferMB: nat, nTilesPerRow: nat): (m: nat)
    requires nTilesPerRow >= 1
    ensures m >= 8192 && m >= MaxBuf(bufferMB) / nTilesPerRow
    ensures m == 8192 || m == MaxBuf(bufferMB) / nTilesPerRow
  {
    Max(8192, MaxBuf(bufferMB) / nTilesPerRow)
  }

  /** The bucket-size adjustment of `split`. Division by zero is an error. */
  function SplitBucketSize(bucketSize: nat, bufferMB: nat, nChanOut: nat, tileNchan: nat): (r: Result<nat>)
    ensures r.Ok? <==> tileNchan >= 1 && NTilesPerRow(nChanOut, tileNchan) >= 1
    ensures r.Ok? ==> r.value <= bucketSize
                      && r.value <= MaxBucketSize(bufferMB, NTilesPerRow(nChanOut, tileNchan))
    ensures r.Ok? && bucketSize <= MaxBucketSize(bufferMB, NTilesPerRow(nChanOut, tileNchan))
            ==> r.value == bucketSize
  {
    if tileNchan == 0 then Err("division by zero")
    else
      var nTilesPerRow := NTilesPerRow(nChanOut, tileNchan);
      if nTilesPerRow == 0 then Err("division by zero")
      else
        var maxBucketSize := MaxBucketSize(bufferMB, nTilesPerRow);
        Ok(if bucketSize > maxBucketSize then maxBucketSize else bucketSize)
  }

  /** `bufferMB * 1024 * 1024` in `uInt` arithmetic. */
  function MaxBuf(bufferMB: nat): (b: nat)
    ensures b < TwoTo32
    ensures bufferMB < 4096 ==> b == bufferMB * 1024 * 1024
  {
    U32(bufferMB * 1024 * 1024)
  }

  /** `(nChanOut - 1) / tileNchan + 1` in `uInt` arithmetic. */
  function NTilesPerRow(nChanOut: nat, tileNchan: nat): (t: nat)
    requires tileNchan >= 1
    ensures t < TwoTo32
  {
    U32(U32(nChanOut - 1) / tileNchan + 1)
  }

  /** For a non-empty spectrum the tiles just cover the output channels. */
  lemma TilesCoverChannels(nChanOut: nat, tileNchan: nat)
    requires 1 <= nChanOut < TwoTo32 && tileNchan >= 1
    ensures var t := NTilesPerRow(nChanOut, tileNchan);
            t >= 1 && (t - 1) * tileNchan < nChanOut <= t * tileNchan
  {
    var a := nChanOut - 1;
    var q := a / tileNchan;
    DivBounds(a, tileNchan);
    MulAtLeast(q, tileNchan);
    assert U32(a) == a;
    assert U32(q + 1) == q + 1;
    assert NTilesPerRow(nChanOut, tileNchan) == q + 1;
  }

  lemma MulAtLeast(a: nat, b: nat)
    requires b >= 1
    ensures a <= a * b
  {
  }

  /**
   * The channel range 1..0 passes every check `split` makes; it gives no
   * output channels, the tile count wraps round to 0 and the bucket-size
   * adjustment divides by zero.
   */
  lemma EmptyRangeDividesByZero(totChanIn: nat, bucketSize: nat, bufferMB: nat)
    ensures ValidateSplitAsWritten(1, 0, 1, totChanIn) == Ok(0)
    ensures SplitBucketSize(bucketSize, bufferMB, 0 / 1, 1).Err?
    ensures ValidateSplit(1, 0, 1, totChanIn).Err?
  {
    assert NTilesPerRow(0, 1) == 0;
  }

  /** Once the corrected checks pass, sizing succeeds for any positive tile width. */
  lemma ValidatedSplitSizes(startChan: nat, endChan: nat, width: nat, totChanIn: nat,
                            bucketSize: nat, bufferMB: nat, tileNchan: nat)
    requires startChan < TwoTo32 && endChan < TwoTo32 && width < TwoTo32 && tileNchan >= 1
    requires ValidateSplit(startChan, endChan, width, totChanIn).Ok?
    ensures SplitBucketSize(bucketSize, bufferMB, ValidateSplit(startChan, endChan, width, totChanIn).value / width,
                            tileNchan).Ok?
  {
    var n := ValidateSplit(startChan, endChan, width, totChanIn).value;
    TilesCoverChannels(n / width, tileNchan);
  }

  /** The tiling `create` sets up. */
  datatype Tiling = Tiling(bucketSize: nat, tileNcorr: nat, tileNchan: nat, tileNrow: int)

  /** `sizeof(Complex) * tileNcorr * tileNchan`, kept as a 32-bit pattern. */
  function BytesPerRow(tileNcorr: nat, tileNchan: nat): (b: nat)
    ensures b < TwoTo32
    ensures 8 * tileNcorr * tileNchan < TwoTo32 ==> b == 8 * tileNcorr * tileNchan
  {
    U32(8 * tileNcorr * tileNchan)
  }

  /**
   * `create`: clamps the bucket size and tile shape, then sizes the tile's row
   * count to fill a bucket, but not beyond the table. The product
   * `bytesPerRow` is stored in an `int` and then divides a `uInt`; a product
   * that wraps to 0 is a division by zero.
   */
  function Create(bucketSize: nat, tileNcorr: nat, tileNchan: nat, nRow: nat): (r: Result<Tiling>)
    requires nRow < TwoTo32
    ensures r.Ok? <==> BytesPerRow(Max(tileNcorr, 1), Max(tileNchan, 1)) != 0
    ensures r.Ok? ==> r.value.bucketSize == Max(bucketSize, 8192) >= 8192
                      && r.value.tileNcorr == Max(tileNcorr, 1) >= 1
                      && r.value.tileNchan == Max(tileNchan, 1) >= 1
    ensures r.Ok? && nRow < 0x8000_0000 ==>
              0 <= r.value.tileNrow <= nRow && (nRow >= 1 ==> r.value.tileNrow >= 1)
  {
    var b := Max(bucketSize, 8192);
    var ncorr := Max(tileNcorr, 1);
    var nchan := Max(tileNchan, 1);
    var bytesPerRow := BytesPerRow(ncorr, nchan);
    if bytesPerRow == 0 then Err("division by zero")
    else Ok(Tiling(b, ncorr, nchan, AsInt32(Min(nRow, Max(1, b / bytesPerRow)))))
  }

  /** Euclidean division brackets its dividend. */
  lemma DivBounds(a: nat, b: nat)
    requires b >= 1
    ensures (a / b) * b <= a < (a / b + 1) * b
  {
  }

  /** Rows per tile chosen as `min(nRow, max(1, bucket / bytes))`. */
  lemma RowsFillBucket(bucket: nat, bytes: nat, nRow: nat, rows: nat)
    requires bytes >= 1 && rows == Min(nRow, Max(1, bucket / bytes))
    ensures rows > 1 ==> rows * bytes <= bucket
    ensures rows < nRow ==> (rows + 1) * bytes > bucket
  {
    var q := bucket / bytes;
    DivBounds(bucket, bytes);
    if rows > 1 {
      MulMono(rows, q, bytes);
    }
    if rows < nRow {
      MulMono(q + 1, rows + 1, bytes);
    }
  }

  /**
   * Tiles hold as many rows as fit in a bucket: more than one row only when
   * they fit, and fewer rows than the table only when one more would not fit.
   */
  lemma TileRowsFillBucket(bucketSize: nat, tileNcorr: nat, tileNchan: nat, nRow: nat)
    requires nRow < 0x8000_0000 && Create(bucketSize, tileNcorr, tileNchan, nRow).Ok?
    ensures var t := Create(bucketSize, tileNcorr, tileNchan, nRow).value;
            var bytes := BytesPerRow(t.tileNcorr, t.tileNchan);
            (t.tileNrow > 1 ==> t.tileNrow * bytes <= t.bucketSize)
            && (t.tileNrow < nRow ==> (t.tileNrow + 1) * bytes > t.bucketSize)
  {
    var t := Create(bucketSize, tileNcorr, tileNchan, nRow).value;
    var bytes := BytesPerRow(t.tileNcorr, t.tileNchan);
    assert t.tileNrow == Min(nRow, Max(1, t.bucketSize / bytes));
    RowsFillBucket(t.bucketSize, bytes, nRow, t.tileNrow);
  }

  lemma MulMono(a: nat, b: nat, c: nat)
    requires a <= b
    ensures a * c <= b * c
  {
  }

  // ---------------------------------------------------- spectral window

  /** `splitSpectralWindow`: the first input channel (0-based) averaged into output channel `d`. */
  function ChanOffset(startChan: nat, width: nat, d: nat): (o: nat)
    requires startChan >= 1
    ensures o >= startChan - 1 && o - (startChan - 1) == d * width
  {
    startChan - 1 + d * width
  }

  /** The input channels of each output channel, in order. */
  function SourceChannels(startChan: nat, width: nat, nChanOut: nat): (s: seq<seq<nat>>)
    requires startChan >= 1
    ensures |s| == nChanOut
    ensures forall d :: 0 <= d < nChanOut ==> s[d] == Interval(ChanOffset(startChan, width, d), width)
  {
    seq(nChanOut, d requires 0 <= d < nChanOut => Interval(ChanOffset(startChan, width, d), width))
  }

  function Concat(s: seq<seq<nat>>): seq<nat>
  {
    if s == [] then [] else Concat(s[..|s| - 1]) + s[|s| - 1]
  }

  /**
   * The output channels of a validated split read every selected input
   * channel exactly once, in order: the windows concatenate to
   * `startChan-1 .. endChan-1`.
   */
  lemma {:induction false} WindowsTileRange(startChan: nat, width: nat, nChanOut: nat)
    requires startChan >= 1
    ensures Concat(SourceChannels(startChan, width, nChanOut)) == Interval(startChan - 1, nChanOut * width)
  {
    if nChanOut > 0 {
      var s := SourceChannels(startChan, width, nChanOut);
      assert s[..nChanOut - 1] == SourceChannels(startChan, width, nChanOut - 1);
      WindowsTileRange(startChan, width, nChanOut - 1);
      assert (nChanOut - 1) * width + width == nChanOut * width;
      assert Interval(startChan - 1, nChanOut * width)
             == Interval(startChan - 1, (nChanOut - 1) * width) + s[nChanOut - 1];
    }
  }

  // ---------------------------------------------------------- averaging

  /** The number of unflagged channels. */
  function CountUnflagged(flags: seq<bool>): nat
  {
    if flags == [] then 0 else CountUnflagged(flags[..|flags| - 1]) + (if flags[|flags| - 1] then 0 else 1)
  }

  /** The sum of the unflagged values. */
  function SumUnflagged(data: seq<real>, flags: seq<bool>): real
    requires |data| == |flags|
  {
    if flags == [] then 0.0
    else SumUnflagged(data[..|data| - 1], flags[..|flags| - 1])
         + (if flags[|flags| - 1] then 0.0 else data[|data| - 1])
  }

  predicate AllFlagged(flags: seq<bool>)
  {
    forall i :: 0 <= i < |flags| ==> flags[i]
  }

  /** No channel counts exactly when every channel is flagged. */
  lemma {:induction false} CountZeroIffAllFlagged(flags: seq<bool>)
    ensures CountUnflagged(flags) == 0 <==> AllFlagged(flags)
  {
    if flags != [] {
      CountZeroIffAllFlagged(flags[..|flags| - 1]);
      assert forall i :: 0 <= i < |flags| - 1 ==> flags[..|flags| - 1][i] == flags[i];
    }
  }

  /** One averaged output channel: `None` when it is flagged (its data is left unset). */
  function Averaged(data: seq<real>, flags: seq<bool>): (r: Option<real>)
    requires |data| == |flags|
    ensures r.None? <==> AllFlagged(flags)
    ensures r.Some? ==> r.value * CountUnflagged(flags) as real == SumUnflagged(data, flags)
  {
    var n := CountUnflagged(flags);
    CountZeroIffAllFlagged(flags);
    if n > 0 then Some(SumUnflagged(data, flags) / n as real) else None
  }

  /** The innermost loop: sum and count the unflagged channels of one window. */
  method AverageWindow(data: seq<real>, flags: seq<bool>) returns (o: Option<real>)
    requires |data| == |flags|
    ensures o == Averaged(data, flags)
    ensures o.None? <==> AllFlagged(flags)
  {
    var sum := 0.0;
    var sumcount: nat := 0;
    var i := 0;
    while i < |flags|
      invariant i <= |flags|
      invariant sumcount == CountUnflagged(flags[..i])
      invariant sum == SumUnflagged(data[..i], flags[..i])
    {
      assert flags[..i + 1][..i] == flags[..i];
      assert data[..i + 1][..i] == data[..i];
      if !flags[i] {
        sum := sum + data[i];
        sumcount := sumcount + 1;
      }
      i := i + 1;
    }
    assert flags[..i] == flags && data[..i] == data;
    o := if sumcount > 0 then Some(sum / sumcount as real) else None;
    CountZeroIffAllFlagged(flags);
  }

  /** Window `d` of a spectrum cut into windows of `width` channels. */
  lemma WindowFits(d: nat, width: nat, n: nat)
    requires width >= 1 && n % width == 0 && d < n / width
    ensures d * width + width <= n
  {
    DivBounds(n, width);
    MulMono(d + 1, n / width, width);
  }

  /**
   * The averaging loop of `splitMainTable` for one polarisation of one row:
   * output channel `d` averages the unflagged input channels
   * `d*width .. d*width+width-1` and is flagged iff all of them are flagged.
   */
  method AverageSpectrum(data: seq<real>, flags: seq<bool>, width: nat) returns (out: seq<Option<real>>)
    requires width >= 1 && |data| == |flags| && |data| % width == 0
    ensures |out| == |data| / width
    ensures forall d :: 0 <= d < |out| ==> d * width + width <= |data|
    ensures forall d :: 0 <= d < |out| ==>
              out[d] == Averaged(data[d * width..d * width + width], flags[d * width..d * width + width])
              && (out[d].None? <==> AllFlagged(flags[d * width..d * width + width]))
  {
    var nChanOut := |data| / width;
    out := [];
    var destChan := 0;
    while destChan < nChanOut
      invariant destChan <= nChanOut && |out| == destChan
      invariant forall d :: 0 <= d < destChan ==> d * width + width <= |data|
      invariant forall d :: 0 <= d < destChan ==>
                  out[d] == Averaged(data[d * width..d * width + width], flags[d * width..d * width + width])
                  && (out[d].None? <==> AllFlagged(flags[d * width..d * width + width]))
    {
      WindowFits(destChan, width, |data|);
      var lo := destChan * width;
      var o := AverageWindow(data[lo..lo + width], flags[lo..lo + width]);
      out := out + [o];
      destChan := destChan + 1;
    }
  }

  /**
   * With `width == 1` the C++ copies data and flags unchanged; averaging one
   * channel gives the same flags, and the same data wherever it is unflagged.
   */
  lemma WidthOneIsCopy(data: seq<real>, flags: seq<bool>, d: nat)
    requires |data| == |flags| && d < |data|
    ensures Averaged(data[d..d + 1], flags[d..d + 1]) == (if flags[d] then None else Some(data[d]))
  {
    var f := flags[d..d + 1];
    assert f[..0] == [] && data[d..d + 1][..0] == [] && f[0] == flags[d];
    var v := data[d..d + 1];
    assert v[0] == data[d];
    assert CountUnflagged(f) == (if flags[d] then 0 else 1);
    assert SumUnflagged(v, f) == SumUnflagged(v[..0], f[..0]) + (if flags[d] then 0.0 else data[d]);
    assert SumUnflagged(v[..0], f[..0]) == 0.0;
  }
}
