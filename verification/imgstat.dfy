// The `-w` option of `imgstat`: the corners of the slice over which the
// inner-quarter extrema are taken. The first two axes are cut to
// [n/4, 3(n/4)], every further axis to its first plane.

module ImgStat {
  import opened Common

  const Need2D := "Need 2D images for the '-w' option"
  const NegativeBlc := "BLC is negative"
  const TrcBeyondEdge := "TRC extends beyond the edge"

  /** Bottom-left and top-right corners, both inclusive (`Slicer::endIsLast`). */
  datatype Corners = Corners(blc: seq<int>, trc: seq<int>)

  /** `IPosition(n, 0)`. */
  function Zeros(n: nat): (r: seq<int>)
    ensures |r| == n && forall d :: 0 <= d < n ==> r[d] == 0
  {
    if n == 0 then [] else Zeros(n - 1) + [0]
  }

  /** The shape with one subtracted on every axis and axes from 2 on set to 0, before the first two are overwritten. */
  function LastOnFirstAxes(shape: seq<nat>): (r: seq<int>)
    ensures |r| == |shape|
    ensures forall d :: 0 <= d < |shape| ==> r[d] == if d >= 2 then 0 else shape[d] as int - 1
  {
    seq(|shape|, d requires 0 <= d < |shape| => if d >= 2 then 0 else shape[d] as int - 1)
  }

  /**
   * The corner computation and its two checks. Axis extents are never
   * negative, so the `blc` check cannot fail; the `trc` check fails exactly
   * when one of the first two axes is empty.
   */
  function InnerQuarter(shape: seq<nat>): (r: Result<Corners>)
    ensures r.Err? && |shape| < 2 ==> r.error == Need2D
    ensures r.Ok? <==> |shape| >= 2 && shape[0] > 0 && shape[1] > 0
    ensures r.Ok? ==> |r.value.blc| == |shape| && |r.value.trc| == |shape|
    ensures r.Ok? ==> r.value.blc[0] == shape[0] / 4 && r.value.blc[1] == shape[1] / 4
    ensures r.Ok? ==> r.value.trc[0] == 3 * (shape[0] / 4) && r.value.trc[1] == 3 * (shape[1] / 4)
    ensures r.Ok? ==> forall d :: 2 <= d < |shape| ==> r.value.blc[d] == 0 && r.value.trc[d] == 0
  {
    if |shape| < 2 then Err(Need2D)
    else
      var blc := Zeros(|shape|)[0 := shape[0] / 4][1 := shape[1] / 4];
      var trc := LastOnFirstAxes(shape)[0 := 3 * blc[0]][1 := 3 * blc[1]];
      if !(blc[0] >= 0 && blc[1] >= 0) then Err(NegativeBlc)
      else if !(trc[1] < shape[1] && trc[0] < shape[0]) then Err(TrcBeyondEdge)
      else Ok(Corners(blc, trc))
  }

  /** Three quarters of an extent, rounded down to a multiple of three, stay inside a non-empty axis and above its quarter. */
  lemma QuarterInside(n: nat)
    requires n > 0
    ensures 0 <= n / 4 <= 3 * (n / 4) < n
  {
  }

  /** On a valid shape the slice is non-empty and lies inside the image on every axis. */
  lemma SliceInsideImage(shape: seq<nat>)
    requires InnerQuarter(shape).Ok?
    ensures var c := InnerQuarter(shape).value;
            forall d :: 0 <= d < |shape| ==> 0 <= c.blc[d] <= c.trc[d] && (d < 2 || shape[d] == 0 || c.trc[d] < shape[d])
  {
    QuarterInside(shape[0]);
    QuarterInside(shape[1]);
  }
}
