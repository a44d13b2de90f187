// The integer bookkeeping of `TableVisGridder`: the constructor's checks,
// the normalisation of the oversampled offsets of a sample, the test that
// the convolution support of a sample lies on the grid, which channels take
// part in (de)gridding and what the loop counts, the padding helpers
// `toComplex`/`toDouble`, the shape of the sum-of-weights array and the
// default plane indices. Visibilities, convolution functions, phase
// rotation and the floating-point scaling of (u, v) are not modelled: a
// sample arrives with its rounded cell and oversampled offset.

module TableVisGridder {
  import opened Common

  // ------------------------------------------------------------ constructor

  datatype Gridder = Gridder(overSample: int, support: int, padding: int, name: string)

  /** The constructor: oversampling, support and padding must all be positive, checked in that order. */
  function NewGridder(overSample: int, support: int, padding: int, name: string): (r: Result<Gridder>)
    ensures r.Ok? <==> overSample > 0 && support > 0 && padding > 0
    ensures r.Ok? ==> r.value == Gridder(overSample, support, padding, name)
    ensures overSample <= 0 ==> r == Err("Oversampling must be greater than 0")
    ensures overSample > 0 && support <= 0 ==> r == Err("Maximum support must be greater than 0")
    ensures overSample > 0 && support > 0 && padding <= 0 ==> r == Err("Padding factor must be greater than 0")
  {
    if overSample <= 0 then Err("Oversampling must be greater than 0")
    else if support <= 0 then Err("Maximum support must be greater than 0")
    else if padding <= 0 then Err("Padding factor must be greater than 0")
    else Ok(Gridder(overSample, support, padding, name))
  }

  // ------------------------------------------------------ oversampled offset

  /** A grid cell with the oversampled fraction of a cell the sample is offset by. */
  datatype Offset = Offset(cell: int, frac: int)

  /**
   * The adjustment in `generic`: a negative fraction moves the sample one
   * cell up, a fraction of a whole cell or more moves it one cell down; the
   * result must then lie in [0, overSample). `axis` is "u" or "v" and only
   * names the axis in the messages.
   */
  function NormaliseOffset(cell: int, frac: int, overSample: int, axis: string): (r: Result<Offset>)
    requires overSample > 0
    ensures r.Ok? <==> -overSample <= frac < 2 * overSample
    ensures r.Ok? ==> 0 <= r.value.frac < overSample
    ensures r.Ok? ==> r.value.cell * overSample - r.value.frac == cell * overSample - frac
  {
    var adjusted :=
      if frac < 0 then Offset(cell + 1, frac + overSample)
      else if frac >= overSample then Offset(cell - 1, frac - overSample)
      else Offset(cell, frac);
    if !(adjusted.frac > -1) then Err("Fractional offset in " + axis + " is negative")
    else if !(adjusted.frac < overSample) then Err("Fractional offset in " + axis + " exceeds oversampling")
    else Ok(adjusted)
  }

  /**
   * The sample's place on an axis of `shape` cells: the normalised offset
   * with the cell counted from the edge of the grid rather than its centre.
   */
  function PlaceOnAxis(cell: int, frac: int, overSample: int, shape: int, axis: string): (r: Result<Offset>)
    requires overSample > 0
    ensures r.Ok? <==> NormaliseOffset(cell, frac, overSample, axis).Ok?
    ensures r.Ok? ==> r.value.frac == NormaliseOffset(cell, frac, overSample, axis).value.frac
    ensures r.Ok? ==> r.value.cell - shape / 2 == NormaliseOffset(cell, frac, overSample, axis).value.cell
    ensures r.Err? ==> r == NormaliseOffset(cell, frac, overSample, axis)
  {
    match NormaliseOffset(cell, frac, overSample, axis)
    case Err(e) => Err(e)
    case Ok(o) => Ok(o.(cell := o.cell + shape / 2))
  }

  /**
   * The position the offset stands for, in oversampled units, is where the
   * sample was: both fractions in range give the same offset.
   */
  lemma NormaliseOffsetUnique(cell: int, frac: int, overSample: int, axis: string, o: Offset)
    requires overSample > 0 && NormaliseOffset(cell, frac, overSample, axis).Ok?
    requires 0 <= o.frac < overSample && o.cell * overSample - o.frac == cell * overSample - frac
    ensures NormaliseOffset(cell, frac, overSample, axis).value == o
  {
    var r := NormaliseOffset(cell, frac, overSample, axis).value;
    SameRemainder(r.cell, r.frac, o.cell, o.frac, overSample);
  }

  lemma SameRemainder(c1: int, f1: int, c2: int, f2: int, n: int)
    requires n > 0 && 0 <= f1 < n && 0 <= f2 < n && c1 * n - f1 == c2 * n - f2
    ensures c1 == c2 && f1 == f2
  {
    if c1 < c2 {
      MulGap(c1, c2, n);
    } else if c2 < c1 {
      MulGap(c2, c1, n);
    }
  }

  lemma MulGap(a: int, b: int, n: nat)
    requires a < b
    ensures b * n - a * n >= n
  {
    var d: nat := b - a;
    MulMono(1, d, n);
    assert b * n - a * n == d * n;
  }

  lemma MulMono(a: nat, b: nat, c: nat)
    requires a <= b
    ensures a * c <= b * c
  {
  }

  /** The index of the convolution function: the oversampled planes of plane `c`. */
  function ConvIndex(fracu: int, fracv: int, overSample: int, c: int): int
  {
    fracu + overSample * (fracv + overSample * c)
  }

  /** With the default `cIndex` (0) the index of a normalised sample lies within the `overSample`² planes. */
  lemma DefaultConvIndexInRange(u: Offset, v: Offset, overSample: int)
    requires overSample > 0 && 0 <= u.frac < overSample && 0 <= v.frac < overSample
    ensures 0 <= ConvIndex(u.frac, v.frac, overSample, CIndex(0, 0, 0)) < overSample * overSample
  {
    var os: nat := overSample;
    MulMono(v.frac + 1, os, os);
    assert ConvIndex(u.frac, v.frac, overSample, 0) == u.frac + os * v.frac;
  }

  /** `cIndex`: the default implementation puts every sample on convolution plane 0. */
  function CIndex(row: int, pol: int, chan: int): int
  {
    0
  }

  /** `gIndex`: the default implementation uses grid 0 for every sample. */
  function GIndex(row: int, pol: int, chan: int): int
  {
    0
  }

  const GridIndexNegative := "Index into image grid is less than zero"
  const GridIndexTooLarge := "Index into image grid exceeds number of planes"
  const ConvIndexNegative := "Index into convolution functions is less than zero"
  const ConvIndexTooLarge := "Index into convolution functions exceeds number of planes"

  /** The grid and convolution function one polarisation of a sample uses, checked against their counts. */
  function PlaneIndices(gInd: int, cInd: int, nGrids: nat, nConvFuncs: nat): (r: Result<(nat, nat)>)
    ensures r.Ok? <==> 0 <= gInd < nGrids && 0 <= cInd < nConvFuncs
    ensures r.Ok? ==> r.value == (gInd, cInd)
  {
    if !(gInd > -1) then Err(GridIndexNegative)
    else if !(gInd < nGrids) then Err(GridIndexTooLarge)
    else if !(cInd > -1) then Err(ConvIndexNegative)
    else if !(cInd < nConvFuncs) then Err(ConvIndexTooLarge)
    else Ok((gInd, cInd))
  }

  /**
   * With the default indices a normalised sample passes both checks as soon
   * as there is one grid and the `overSample`² convolution planes.
   */
  lemma DefaultIndicesAccepted(row: int, pol: int, chan: int, u: Offset, v: Offset, overSample: int,
                               nGrids: nat, nConvFuncs: nat)
    requires overSample > 0 && 0 <= u.frac < overSample && 0 <= v.frac < overSample
    requires nGrids >= 1 && nConvFuncs >= overSample * overSample
    ensures PlaneIndices(GIndex(row, pol, chan), ConvIndex(u.frac, v.frac, overSample, CIndex(row, pol, chan)),
                         nGrids, nConvFuncs).Ok?
  {
    DefaultConvIndexInRange(u, v, overSample);
  }

  // ------------------------------------------------------------ on the grid

  /** The test in `generic` that the support around (`iu`, `iv`) lies on a `shape0` by `shape1` grid. */
  predicate OnGrid(iu: int, iv: int, support: int, shape0: int, shape1: int)
  {
    iu - support > 0 && iv - support > 0 && iu + support < shape0 && iv + support < shape1
  }

  /** A cell index inside an axis of `n` cells, away from the first one. */
  predicate Inside(x: int, n: int)
  {
    1 <= x < n
  }

  /** Every cell within `support` of `i` along an axis of `n` cells is inside. */
  predicate SupportInside(i: int, support: int, n: int)
  {
    forall x :: i - support <= x <= i + support ==> Inside(x, n)
  }

  /**
   * A sample passes the test exactly when every cell its support touches,
   * along u and along v, lies inside the grid, away from the first row and
   * column.
   */
  lemma OnGridIffSupportInside(iu: int, iv: int, support: int, shape0: int, shape1: int)
    requires support >= 0
    ensures OnGrid(iu, iv, support, shape0, shape1)
            <==> SupportInside(iu, support, shape0) && SupportInside(iv, support, shape1)
  {
    if iu - support <= 0 {
      assert !Inside(iu - support, shape0);
    }
    if iu + support >= shape0 {
      assert !Inside(iu + support, shape0);
    }
    if iv - support <= 0 {
      assert !Inside(iv - support, shape1);
    }
    if iv + support >= shape1 {
      assert !Inside(iv + support, shape1);
    }
  }

  // ------------------------------------------------------------ the loop

  /**
   * What `generic` sees of one (row, channel): the flags of its
   * polarisations, whether the frequency mapper maps the channel, its
   * normalised cell in u and v, and whether it is the data used for the PSF.
   */
  datatype Sample = Sample(polFlags: seq<bool>, mapped: bool, iu: int, iv: int, forPsf: bool)

  /** A channel takes part only when none of its polarisations is flagged and it is mapped to the image. */
  predicate Used(s: Sample)
  {
    (forall p :: 0 <= p < |s.polFlags| ==> !s.polFlags[p]) && s.mapped
  }

  datatype Counters = Counters(samplesGridded: nat, samplesDegridded: nat, vectorsFlagged: nat)

  /** Where a pass of `generic` is going. */
  datatype Pass = Pass(forward: bool, psf: bool, modelIsEmpty: bool, shape0: int, shape1: int, nImagePols: nat,
                       sumWeightsSet: bool, uvCellSizesSet: bool)

  /** What one (row, channel) adds to the counters. */
  function Count(g: Gridder, pass: Pass, c: Counters, s: Sample): (r: Counters)
    ensures Used(s) ==> r.vectorsFlagged == c.vectorsFlagged
    ensures !Used(s) ==> r.samplesGridded == c.samplesGridded && r.samplesDegridded == c.samplesDegridded
    ensures !Used(s) ==> r.vectorsFlagged == c.vectorsFlagged + (if pass.forward then 0 else 1)
    ensures Used(s) && !OnGrid(s.iu, s.iv, g.support, pass.shape0, pass.shape1) ==> r == c
    ensures Used(s) && OnGrid(s.iu, s.iv, g.support, pass.shape0, pass.shape1) ==>
              if pass.forward
              then r.samplesDegridded == c.samplesDegridded + pass.nImagePols
                   && r.samplesGridded == c.samplesGridded
              else r.samplesDegridded == c.samplesDegridded
                   && r.samplesGridded == c.samplesGridded
                                          + (if !pass.psf || s.forPsf then pass.nImagePols else 0)
  {
    if Used(s) then
      if !OnGrid(s.iu, s.iv, g.support, pass.shape0, pass.shape1) then c
      else if pass.forward then c.(samplesDegridded := c.samplesDegridded + pass.nImagePols)
      else if !pass.psf || s.forPsf then c.(samplesGridded := c.samplesGridded + pass.nImagePols)
      else c
    else if pass.forward then c
    else c.(vectorsFlagged := c.vectorsFlagged + 1)
  }

  /** The counters after the rows and channels of one accessor, in loop order. */
  function CountAll(g: Gridder, pass: Pass, c: Counters, samples: seq<Sample>): Counters
    decreases |samples|
  {
    if |samples| == 0 then c else CountAll(g, pass, Count(g, pass, c, samples[0]), samples[1..])
  }

  const PsfDegridding := "Logic error: the gridder is not supposed to be used for degridding in the PSF mode"
  const SumWeightsUnset := "SumWeights not yet initialised"
  const SupportNotPositive := "Support must be greater than 0"
  const CellSizesUnset := "UV cell sizes not yet set"

  /**
   * `generic`: degridding into an empty model does nothing; degridding with
   * a PSF gridder, gridding before the sum of weights exists, a support
   * that is not positive and missing cell sizes are errors, checked in
   * that order; otherwise every (row, channel) is counted. `sumWeightsSet`
   * and `uvCellSizesSet` stand for `itsSumWeights.nelements() > 0` and
   * `itsUVCellSize.size() == 2` after the convolution function is set up.
   */
  function Generic(g: Gridder, pass: Pass, c: Counters, samples: seq<Sample>): (r: Result<Counters>)
    ensures pass.forward && pass.modelIsEmpty ==> r == Ok(c)
    ensures r.Err? <==> !(pass.forward && pass.modelIsEmpty)
                        && ((pass.forward && pass.psf) || (!pass.forward && !pass.sumWeightsSet)
                            || g.support <= 0 || !pass.uvCellSizesSet)
    ensures pass.forward && !pass.modelIsEmpty && pass.psf ==> r == Err(PsfDegridding)
    ensures !pass.forward && !pass.sumWeightsSet ==> r == Err(SumWeightsUnset)
    ensures r.Ok? && !(pass.forward && pass.modelIsEmpty) ==>
              r.value.vectorsFlagged == c.vectorsFlagged + (if pass.forward then 0 else Unused(samples))
    ensures r.Ok? && pass.forward ==> r.value.samplesGridded == c.samplesGridded
    ensures r.Ok? && !pass.forward ==> r.value.samplesDegridded == c.samplesDegridded
  {
    if pass.forward && pass.modelIsEmpty then Ok(c)
    else if pass.forward && pass.psf then Err(PsfDegridding)
    else if !pass.forward && !pass.sumWeightsSet then Err(SumWeightsUnset)
    else if g.support <= 0 then Err(SupportNotPositive)
    else if !pass.uvCellSizesSet then Err(CellSizesUnset)
    else
      CountAllEffect(g, pass, c, samples);
      Ok(CountAll(g, pass, c, samples))
  }

  /** The number of channels left out because of flags or mapping. */
  function Unused(samples: seq<Sample>): nat
  {
    if |samples| == 0 then 0 else (if Used(samples[0]) then 0 else 1) + Unused(samples[1..])
  }

  /**
   * Gridding counts every unused channel as a flagged vector and degridding
   * counts none; degridding never grids and gridding never degrids.
   */
  lemma {:induction false} CountAllEffect(g: Gridder, pass: Pass, c: Counters, samples: seq<Sample>)
    ensures CountAll(g, pass, c, samples).vectorsFlagged
            == c.vectorsFlagged + (if pass.forward then 0 else Unused(samples))
    ensures pass.forward ==> CountAll(g, pass, c, samples).samplesGridded == c.samplesGridded
    ensures !pass.forward ==> CountAll(g, pass, c, samples).samplesDegridded == c.samplesDegridded
    decreases |samples|
  {
    if |samples| > 0 {
      CountAllEffect(g, pass, Count(g, pass, c, samples[0]), samples[1..]);
    }
  }

  /** Every accessor adds to the counters of the ones before it: counting splits over concatenation. */
  lemma {:induction false} CountAllAppend(g: Gridder, pass: Pass, c: Counters, a: seq<Sample>, b: seq<Sample>)
    ensures CountAll(g, pass, c, a + b) == CountAll(g, pass, CountAll(g, pass, c, a), b)
    decreases |a|
  {
    if |a| > 0 {
      assert (a + b)[1..] == a[1..] + b;
      CountAllAppend(g, pass, Count(g, pass, c, a[0]), a[1..], b);
    } else {
      assert a + b == b;
    }
  }

  // --------------------------------------------------------------- padding

  /** A plane indexed `[x][y]`, every row `ny` long. */
  predicate IsPlane<T>(m: seq<seq<T>>, nx: nat, ny: nat)
  {
    |m| == nx && forall x :: 0 <= x < nx ==> |m[x]| == ny
  }

  /**
   * `toComplex` on one plane: a plane `padding` times larger each way, zero
   * (as freshly allocated complex storage is) except for the input copied
   * to offset ((padding-1)·n)/2.
   */
  function ToComplex(m: seq<seq<real>>, nx: nat, ny: nat, padding: nat): (r: seq<seq<real>>)
    requires IsPlane(m, nx, ny) && padding >= 1
    ensures IsPlane(r, nx * padding, ny * padding)
  {
    PaddingRoom(nx, padding);
    PaddingRoom(ny, padding);
    Embed(m, nx, ny, nx * padding, ny * padding, (nx * padding - nx) / 2, (ny * padding - ny) / 2)
  }

  /** The padded plane holds the input at offset ((padding-1)·n)/2 each way. */
  lemma ToComplexCopies(m: seq<seq<real>>, nx: nat, ny: nat, padding: nat, x: nat, y: nat)
    requires IsPlane(m, nx, ny) && padding >= 1 && x < nx && y < ny
    ensures var xOff, yOff := (nx * padding - nx) / 2, (ny * padding - ny) / 2;
            x + xOff < nx * padding && y + yOff < ny * padding
            && ToComplex(m, nx, ny, padding)[x + xOff][y + yOff] == m[x][y]
  {
    PaddingRoom(nx, padding);
    PaddingRoom(ny, padding);
  }

  /** A `wx` by `wy` plane of zeros with `m` copied in at offset (`xOff`, `yOff`). */
  function Embed(m: seq<seq<real>>, nx: nat, ny: nat, wx: nat, wy: nat, xOff: nat, yOff: nat): (r: seq<seq<real>>)
    requires IsPlane(m, nx, ny) && xOff + nx <= wx && yOff + ny <= wy
    ensures IsPlane(r, wx, wy)
    ensures forall x, y :: 0 <= x < nx && 0 <= y < ny ==> r[x + xOff][y + yOff] == m[x][y]
  {
    seq(wx, (x: int) requires 0 <= x < wx =>
      seq(wy, (y: int) requires 0 <= y < wy =>
        if xOff <= x < xOff + nx && yOff <= y < yOff + ny then m[x - xOff][y - yOff] else 0.0))
  }

  /** `toDouble` on one plane: the centre `1/padding` of the plane each way. */
  function ToDouble(m: seq<seq<real>>, nx: nat, ny: nat, padding: nat): (r: seq<seq<real>>)
    requires IsPlane(m, nx, ny) && padding >= 1
    ensures IsPlane(r, nx / padding, ny / padding)
  {
    DivBelow(nx, padding);
    DivBelow(ny, padding);
    Centre(m, nx, ny, nx / padding, ny / padding)
  }

  /** The `ox` by `oy` centre of an `nx` by `ny` plane. */
  function Centre(m: seq<seq<real>>, nx: nat, ny: nat, ox: nat, oy: nat): (r: seq<seq<real>>)
    requires IsPlane(m, nx, ny) && ox <= nx && oy <= ny
    ensures IsPlane(r, ox, oy)
    ensures forall x, y :: 0 <= x < ox && 0 <= y < oy ==> r[x][y] == m[x + (nx - ox) / 2][y + (ny - oy) / 2]
  {
    var xOff, yOff := (nx - ox) / 2, (ny - oy) / 2;
    HalfBelow(nx, ox);
    HalfBelow(ny, oy);
    seq(ox, (x: int) requires 0 <= x < ox => m[x + xOff][yOff..yOff + oy])
  }

  /** Padding and then taking the centre gives the plane back. */
  lemma PaddingRoundTrip(m: seq<seq<real>>, nx: nat, ny: nat, padding: nat)
    requires IsPlane(m, nx, ny) && padding >= 1
    ensures ToDouble(ToComplex(m, nx, ny, padding), nx * padding, ny * padding, padding) == m
  {
    MulDiv(nx, padding);
    MulDiv(ny, padding);
    var r := ToDouble(ToComplex(m, nx, ny, padding), nx * padding, ny * padding, padding);
    forall x | 0 <= x < nx ensures r[x] == m[x] {
    }
  }

  lemma DivBounds(a: nat, b: nat)
    requires b >= 1
    ensures (a / b) * b <= a < (a / b + 1) * b
  {
  }

  lemma MulDiv(n: nat, p: nat)
    requires p >= 1
    ensures (n * p) / p == n
  {
    var q := (n * p) / p;
    DivBounds(n * p, p);
    if q < n {
      MulMono(q + 1, n, p);
    } else if q > n {
      MulMono(n + 1, q, p);
    }
  }

  lemma PaddingRoom(n: nat, p: nat)
    requires p >= 1
    ensures 0 <= (n * p - n) / 2 && (n * p - n) / 2 + n <= n * p
  {
    MulMono(1, p, n);
  }

  lemma DivBelow(n: nat, p: nat)
    requires p >= 1
    ensures n / p <= n
  {
    var q := n / p;
    DivBounds(n, p);
    MulMono(1, p, q);
    assert q <= q * p;
  }

  lemma HalfBelow(n: int, q: int)
    requires 0 <= q <= n
    ensures (n - q) / 2 + q <= n
  {
  }

  // ---------------------------------------------------------- sum of weights

  /** The sum of weights, indexed by convolution plane, polarisation and channel. */
  type SumWeights = seq<seq<seq<real>>>

  /** A `d0` by `d1` by `d2` array. */
  predicate IsCube(w: SumWeights, d0: nat, d1: nat, d2: nat)
  {
    |w| == d0 && (forall i :: 0 <= i < d0 ==> IsPlane(w[i], d1, d2))
  }

  /** A dimension of the image shape, 1 when the shape has fewer axes. */
  function AxisOr1(shape: seq<nat>, axis: nat): nat
  {
    if |shape| > axis then shape[axis] else 1
  }

  /**
   * `initialiseSumOfWeights`: one convolution plane, the polarisations and
   * channels of the image (1 when the shape has no such axis), all zero.
   */
  function InitialiseSumOfWeights(shape: seq<nat>): (r: SumWeights)
    ensures IsCube(r, 1, AxisOr1(shape, 2), AxisOr1(shape, 3))
    ensures forall p, c :: 0 <= p < |r[0]| && 0 <= c < |r[0][p]| ==> r[0][p][c] == 0.0
  {
    var nPol, nChan := AxisOr1(shape, 2), AxisOr1(shape, 3);
    [seq(nPol, _ => seq(nChan, _ => 0.0))]
  }

  const WeightsNotInitialised := "Sum of weights not yet initialised"

  /**
   * What gridding one polarisation of a sample adds to the sum of weights:
   * one at (`cInd`, `pol`, `imageChan`). The array must have been
   * initialised and `cInd` must be below its first dimension; a polarisation
   * or channel beyond the array is undefined behaviour.
   */
  function AddWeight(w: SumWeights, d0: nat, d1: nat, d2: nat, cInd: int, pol: nat, imageChan: nat)
    : (r: Result<SumWeights>)
    requires IsCube(w, d0, d1, d2)
    ensures r.Ok? <==> d0 * d1 * d2 > 0 && 0 <= cInd < d0 && pol < d1 && imageChan < d2
    ensures r.Ok? ==> IsCube(r.value, d0, d1, d2)
    ensures r.Ok? ==> forall i, p, c :: 0 <= i < d0 && 0 <= p < d1 && 0 <= c < d2
                        ==> r.value[i][p][c] == w[i][p][c] + (if (i, p, c) == (cInd, pol, imageChan) then 1.0 else 0.0)
  {
    if !(d0 * d1 * d2 > 0) then Err(WeightsNotInitialised)
    else if !(cInd < d0) then Err(WeightsIndexMessage(cInd, d0))
    else if cInd < 0 || pol >= d1 || imageChan >= d2 then Err(UndefinedBehaviour)
    else
      var plane := w[cInd];
      var row := plane[pol];
      Ok(w[cInd := plane[pol := row[imageChan := row[imageChan] + 1.0]]])
  }

  function WeightsIndexMessage(cInd: int, d0: nat): string
  {
    "Index " + IntToString(cInd) + " greater than allowed " + IntToString(d0)
  }

  const UndefinedBehaviour := "undefined behaviour: index beyond the sum of weights"
}
