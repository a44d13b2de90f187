// `imgNaN2zero`: walk every pixel of an image with an odometer over its
// shape, write NaNs back as 0 and every other value back unchanged, and
// count the NaNs. The image is its pixels in column-major order, so the
// pixel at a position is the one at that position's linear index.

module ImgNaN2Zero {
  import opened Common
  import opened Odometer

  /** A single-precision pixel: NaN or a number. */
  datatype Pixel = NaN | Value(v: real)

  /** What is written back at a pixel. */
  function Repaired(p: Pixel): (r: Pixel)
    ensures r.Value?
    ensures p.Value? ==> r == p
  {
    if p.NaN? then Value(0.0) else p
  }

  function CountNaNs(s: seq<Pixel>): (n: nat)
    ensures n <= |s|
  {
    if |s| == 0 then 0 else CountNaNs(s[..|s| - 1]) + (if s[|s| - 1].NaN? then 1 else 0)
  }

  /** The loop bound: `shape.product()` stored in a `uInt`. */
  function ElementCount(shape: Shape): (n: nat)
    ensures n <= Product(shape)
    ensures Product(shape) < TwoTo32 ==> n == Product(shape)
  {
    U32(Product(shape))
  }

  const TooFewAxes := "shape.nelements()>=2"

  /** The pixels after the first `i` steps of the walk have been written back. */
  ghost predicate RepairedUpTo(img: seq<Pixel>, out: seq<Pixel>, i: nat)
  {
    |out| == |img| && i <= |img|
    && (forall k :: 0 <= k < i ==> out[k] == Repaired(img[k]))
    && (forall k :: i <= k < |img| ==> out[k] == img[k])
  }

  /**
   * The body of `main` after opening the image: an image of fewer than two
   * axes is rejected; otherwise `ElementCount(shape)` steps of the odometer
   * each read the pixel under the cursor, repair it and count it when it was
   * NaN.
   */
  method Nan2Zero(img: seq<Pixel>, shape: Shape) returns (r: Result<(seq<Pixel>, nat)>)
    requires |img| == Product(shape)
    ensures r.Err? <==> |shape| < 2
    ensures r.Err? ==> r.error == TooFewAxes
    ensures r.Ok? ==> RepairedUpTo(img, r.value.0, ElementCount(shape))
    ensures r.Ok? ==> r.value.1 == CountNaNs(img[..ElementCount(shape)])
  {
    if |shape| < 2 {
      return Err(TooFewAxes);
    }
    var out, count := Walk(img, shape, ElementCount(shape));
    return Ok((out, count));
  }

  /** The first `n` steps of the odometer, each repairing the pixel under the cursor and counting it when it was NaN. */
  method Walk(img: seq<Pixel>, shape: Shape, n: nat) returns (out: seq<Pixel>, count: nat)
    requires |img| == Product(shape) && n <= |img|
    ensures RepairedUpTo(img, out, n) && count == CountNaNs(img[..n])
  {
    out := img;
    count := 0;
    var curpos := Origin(|shape|);
    if n > 0 {
      OriginIsFirst(shape);
    }
    var i := 0;
    while i < n
      invariant i <= n && RepairedUpTo(img, out, i) && count == CountNaNs(img[..i])
      invariant i < n ==> curpos == PositionOf(i, shape)
    {
      IndexOfPosition(i, shape);
      var at := Index(curpos, shape);
      RepairStep(img, out, i);
      var val := out[at];
      if val.NaN? {
        count := count + 1;
      }
      out := out[at := Repaired(val)];
      if i + 1 < n {
        AdvancePosition(i, shape);
      }
      curpos := Advance(curpos, shape);
      i := i + 1;
    }
  }

  /** Writing back the pixel at step `i` extends the repaired prefix by one and the count by its NaN. */
  lemma RepairStep(img: seq<Pixel>, out: seq<Pixel>, i: nat)
    requires i < |img| && RepairedUpTo(img, out, i)
    ensures out[i] == img[i] && RepairedUpTo(img, out[i := Repaired(out[i])], i + 1)
    ensures CountNaNs(img[..i + 1]) == CountNaNs(img[..i]) + (if img[i].NaN? then 1 else 0)
  {
    assert img[..i + 1][..i] == img[..i];
  }

  /** An image of fewer than 2^32 pixels is repaired everywhere, and the count is its number of NaNs. */
  lemma WholeImageRepaired(img: seq<Pixel>, shape: Shape, out: seq<Pixel>, count: nat)
    requires |img| == Product(shape) < TwoTo32
    requires RepairedUpTo(img, out, ElementCount(shape)) && count == CountNaNs(img[..ElementCount(shape)])
    ensures forall k :: 0 <= k < |img| ==> out[k] == Repaired(img[k]) && out[k].Value?
    ensures count == CountNaNs(img)
  {
    assert img[..|img|] == img;
  }

  /** Every in-bounds position is the cursor at exactly one step of the walk. */
  lemma EveryPositionOnce(pos: Position, shape: Shape)
    requires InBounds(pos, shape)
    ensures Index(pos, shape) < Product(shape) && PositionOf(Index(pos, shape), shape) == pos
    ensures forall i :: 0 <= i < Product(shape) && PositionOf(i, shape) == pos ==> i == Index(pos, shape)
  {
    PositionOfIndex(pos, shape);
    forall i | 0 <= i < Product(shape) && PositionOf(i, shape) == pos ensures i == Index(pos, shape) {
      IndexOfPosition(i, shape);
    }
  }

  /** The count is the number of pixels that were NaN, so it is zero exactly when the image had none. */
  lemma {:induction false} CountNaNsZero(s: seq<Pixel>)
    ensures CountNaNs(s) == 0 <==> forall k :: 0 <= k < |s| ==> s[k].Value?
  {
    if |s| > 0 {
      var init := s[..|s| - 1];
      CountNaNsZero(init);
      assert forall k :: 0 <= k < |init| ==> init[k] == s[k];
    }
  }
}
