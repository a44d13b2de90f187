// `MultiDimArrayPlaneIter`: iteration over the 2-D planes of an
// N-dimensional array. The plane spans the first two axes; the remaining
// axes are walked as an odometer, fastest first, and each plane is a
// contiguous block of the column-major array.

module PlaneIter {
  import opened Common
  import opened Odometer

  /** The shape walked by the plane cursor: every axis after the first two. */
  function Outer(shape: Shape): Shape
    requires |shape| >= 2
  {
    shape[2..]
  }

  /** The number of planes. */
  function NPlanes(shape: Shape): nat
    requires |shape| >= 2
  {
    Product(Outer(shape))
  }

  /** The number of elements in one plane. */
  function PlaneSize(shape: Shape): nat
    requires |shape| >= 2
  {
    shape[0] * shape[1]
  }

  /** The array holds one plane-sized block per plane. */
  lemma ProductSplits(shape: Shape)
    requires |shape| >= 2
    ensures Product(shape) == PlaneSize(shape) * NPlanes(shape)
  {
    var p := NPlanes(shape);
    assert shape[1..][1..] == Outer(shape);
    assert Product(shape[1..]) == shape[1] * p;
    MulAssoc(shape[0], shape[1], p);
  }

  lemma MulAssoc(a: nat, b: nat, c: nat)
    ensures a * (b * c) == (a * b) * c
  {
  }

  lemma MulDistrib(a: nat, b: nat, c: nat)
    ensures a * (b + c) == a * b + a * c
  {
  }

  /** The iterator: the array shape, the cursor over the outer axes and the plane's sequence number. */
  datatype Iter = Iter(shape: Shape, cursor: Position, seqNo: nat)

  /** The cursor agrees with the sequence number while planes remain. */
  ghost predicate Consistent(it: Iter)
  {
    |it.shape| >= 2 && |it.cursor| == |it.shape| - 2
    && (it.seqNo < NPlanes(it.shape) ==> it.cursor == PositionOf(it.seqNo, Outer(it.shape)))
  }

  lemma FirstPlaneAtOrigin(shape: Shape)
    requires |shape| >= 2
    ensures NPlanes(shape) > 0 ==> PositionOf(0, Outer(shape)) == Origin(|shape| - 2)
  {
    if NPlanes(shape) > 0 {
      OriginIsFirst(Outer(shape));
    }
  }

  lemma NextPlaneAdvances(k: nat, shape: Shape)
    requires |shape| >= 2 && k < NPlanes(shape)
    ensures k + 1 < NPlanes(shape) ==> Advance(PositionOf(k, Outer(shape)), Outer(shape)) == PositionOf(k + 1, Outer(shape))
  {
    if k + 1 < NPlanes(shape) {
      AdvancePosition(k, Outer(shape));
    }
  }

  /** A fresh iterator over `shape`, at the first plane. */
  function Start(shape: Shape): (it: Iter)
    requires |shape| >= 2
    ensures Consistent(it) && it.seqNo == 0 && it.shape == shape
  {
    FirstPlaneAtOrigin(shape);
    Iter(shape, Origin(|shape| - 2), 0)
  }

  function HasMore(it: Iter): bool
    requires |it.shape| >= 2
  {
    it.seqNo < NPlanes(it.shape)
  }

  /** `next()`: step the outer odometer and count the plane. */
  function Next(it: Iter): (r: Iter)
    requires Consistent(it) && HasMore(it)
    ensures Consistent(r) && r.seqNo == it.seqNo + 1 && r.shape == it.shape
  {
    var outer := Outer(it.shape);
    NextPlaneAdvances(it.seqNo, it.shape);
    Iter(it.shape, Advance(it.cursor, outer), it.seqNo + 1)
  }

  /** `position()`: the origin of the current plane in the full array. */
  function PlanePosition(it: Iter): (pos: Position)
    requires Consistent(it) && HasMore(it)
    ensures |pos| == |it.shape| && InBounds(pos[2..], Outer(it.shape))
    ensures pos[0] == 0 && pos[1] == 0 && pos[2..] == PositionOf(it.seqNo, Outer(it.shape))
  {
    IndexOfPosition(it.seqNo, Outer(it.shape));
    var pos := [0, 0] + it.cursor;
    assert pos[2..] == it.cursor;
    pos
  }

  function Ones(n: nat): (r: seq<nat>)
    ensures |r| == n && forall d :: 0 <= d < n ==> r[d] == 1
  {
    if n == 0 then [] else Ones(n - 1) + [1]
  }

  /** `planeShape()`: the full extent on the first two axes, 1 elsewhere. */
  function PlaneShape(shape: Shape): (r: Shape)
    requires |shape| >= 2
    ensures |r| == |shape| && r[0] == shape[0] && r[1] == shape[1]
    ensures forall d :: 2 <= d < |shape| ==> r[d] == 1
    ensures Product(r) == PlaneSize(shape)
  {
    var r := [shape[0], shape[1]] + Ones(|shape| - 2);
    OnesProduct(|shape| - 2);
    assert r[1..][1..] == Ones(|shape| - 2);
    r
  }

  lemma {:induction false} OnesProduct(n: nat)
    ensures Product(Ones(n)) == 1
  {
    if n > 0 {
      OnesProduct(n - 1);
      OnesProductAppend(Ones(n - 1));
    }
  }

  lemma {:induction false} OnesProductAppend(s: seq<nat>)
    ensures Product(s + [1]) == Product(s)
  {
    if |s| > 0 {
      assert (s + [1])[1..] == s[1..] + [1];
      OnesProductAppend(s[1..]);
    }
  }

  /** `tag()` of a cube with polarisation on axis 2 and channel on axis 3. */
  function Tag(it: Iter): (t: string)
    requires Consistent(it) && HasMore(it) && |it.shape| >= 4
  {
    var pos := PlanePosition(it);
    ".pol" + NatToString(pos[2]) + ".chan" + NatToString(pos[3])
  }

  /** The tag names the plane's polarisation and channel and nothing else: two planes share a tag exactly when they agree on axes 2 and 3. */
  lemma {:induction false} TagIdentifiesPlane(a: Iter, b: Iter)
    requires Consistent(a) && HasMore(a) && |a.shape| >= 4
    requires Consistent(b) && HasMore(b) && |b.shape| >= 4
    ensures Tag(a) == Tag(b) <==> PlanePosition(a)[2] == PlanePosition(b)[2] && PlanePosition(a)[3] == PlanePosition(b)[3]
  {
    var pa, pb := PlanePosition(a), PlanePosition(b);
    if Tag(a) == Tag(b) {
      var x, y := NatToString(pa[2]), NatToString(pa[3]);
      var x', y' := NatToString(pb[2]), NatToString(pb[3]);
      assert Tag(a) == ".pol" + x + ".chan" + y && Tag(b) == ".pol" + x' + ".chan" + y';
      assert x + ".chan" + y == Tag(a)[4..] == Tag(b)[4..] == x' + ".chan" + y';
      DigitFieldsSplit(x, y, x', y', ".chan");
      NatToStringInjective(pa[2], pb[2]);
      NatToStringInjective(pa[3], pb[3]);
    }
  }

  /** Two runs of digits each followed by the same separator that opens with a non-digit split the same way. */
  lemma DigitFieldsSplit(x: string, y: string, x': string, y': string, sep: string)
    requires AllDigits(x) && AllDigits(x') && |sep| >= 1 && !IsDigit(sep[0])
    requires x + sep + y == x' + sep + y'
    ensures x == x' && y == y'
  {
    var l, r := x + sep + y, x' + sep + y';
    DigitRunEnds(x, sep, y);
    DigitRunEnds(x', sep, y');
    assert |x| == |x'|;
    assert x == l[..|x|] && x' == r[..|x'|];
    assert y == l[|x| + |sep|..] && y' == r[|x'| + |sep|..];
  }

  /** In a run of digits followed by a separator, the separator's first character is the first non-digit. */
  lemma DigitRunEnds(x: string, sep: string, y: string)
    requires AllDigits(x) && |sep| >= 1 && !IsDigit(sep[0])
    ensures !IsDigit((x + sep + y)[|x|])
    ensures forall i :: 0 <= i < |x| ==> IsDigit((x + sep + y)[i])
  {
  }

  // ------------------------------------------------------------ the planes

  /** `getPlaneVector` on a flattened array: the current plane's block. */
  function GetPlaneVector<T>(it: Iter, flat: seq<T>): (v: seq<T>)
    requires Consistent(it) && HasMore(it) && |flat| == Product(it.shape)
    ensures |v| == PlaneSize(it.shape)
  {
    PlaneBlockInside(it.shape, it.seqNo);
    var p := PlaneSize(it.shape);
    flat[it.seqNo * p .. it.seqNo * p + p]
  }

  lemma PlaneBlockInside(shape: Shape, k: nat)
    requires |shape| >= 2 && k < NPlanes(shape)
    ensures k * PlaneSize(shape) + PlaneSize(shape) <= Product(shape)
  {
    ProductSplits(shape);
    MulLe(PlaneSize(shape), k + 1, NPlanes(shape));
  }

  /** The index of a position inside a plane: the in-plane offset plus the planes before it. */
  lemma IndexSplits(r: nat, c: nat, o: Position, shape: Shape)
    requires |shape| >= 2 && |o| == |shape| - 2
    ensures Index([r, c] + o, shape) == r + shape[0] * c + PlaneSize(shape) * Index(o, Outer(shape))
  {
    var pos := [r, c] + o;
    var tail, rest := pos[1..], shape[1..];
    assert tail[0] == c && tail[1..] == o && rest[0] == shape[1] && rest[1..] == Outer(shape);
    var i := Index(o, Outer(shape));
    var t := Index(tail, rest);
    IndexCons(tail, rest);
    IndexCons(pos, shape);
    TwoLevels(r, c, shape[0], shape[1], i, t);
  }

  /** One level of the column-major sum. */
  lemma IndexCons(pos: Position, shape: Shape)
    requires |pos| == |shape| > 0
    ensures Index(pos, shape) == pos[0] + shape[0] * Index(pos[1..], shape[1..])
  {
  }

  /** Two levels of the column-major sum flattened into one. */
  lemma TwoLevels(r: nat, c: nat, s0: nat, s1: nat, i: nat, t: nat)
    requires t == c + s1 * i
    ensures r + s0 * t == r + s0 * c + (s0 * s1) * i
  {
    MulDistrib(s0, c, s1 * i);
    MulAssoc(s0, s1, i);
  }

  /**
   * Element `j` of the plane vector is the array element at row `j % nx`,
   * column `j / nx` of the current plane: the vector holds exactly that
   * plane, in column-major order.
   */
  lemma PlaneVectorIsPlane<T>(it: Iter, flat: seq<T>, j: nat)
    requires Consistent(it) && HasMore(it) && |flat| == Product(it.shape) && j < PlaneSize(it.shape)
    ensures it.shape[0] > 0
    ensures var pos := [j % it.shape[0], j / it.shape[0]] + PlanePosition(it)[2..];
            InBounds(pos, it.shape) && Index(pos, it.shape) < |flat|
            && GetPlaneVector(it, flat)[j] == flat[Index(pos, it.shape)]
  {
    var shape := it.shape;
    var outer := Outer(shape);
    PositiveFactor(j, shape[0], shape[1]);
    DivBelow(j, shape[0], shape[1]);
    var row, col := j % shape[0], j / shape[0];
    assert row + shape[0] * col == j;
    var o := PlanePosition(it)[2..];
    IndexOfPosition(it.seqNo, outer);
    assert Index(o, outer) == it.seqNo;
    IndexSplits(row, col, o, shape);
    var pos := [row, col] + o;
    assert Index(pos, shape) == j + PlaneSize(shape) * it.seqNo;
    assert InBounds(pos, shape) by {
      forall d | 2 <= d < |pos| ensures pos[d] < shape[d] {
        assert pos[d] == o[d - 2] && outer[d - 2] == shape[d];
      }
    }
    PlaneBlockInside(shape, it.seqNo);
  }

  // ------------------------------------------------------------- the walk

  /**
   * The loop of a client: from `Start` call `Next` while `HasMore`,
   * collecting each plane's position and sequence number.
   */
  method Walk(shape: Shape) returns (positions: seq<Position>, seqNos: seq<nat>)
    requires |shape| >= 2
    ensures |positions| == NPlanes(shape) && |seqNos| == NPlanes(shape)
    ensures forall k :: 0 <= k < |positions| ==> seqNos[k] == k
    ensures forall k :: 0 <= k < |positions| ==> positions[k] == [0, 0] + PositionOf(k, Outer(shape))
  {
    var it := Start(shape);
    positions, seqNos := [], [];
    while HasMore(it)
      invariant Consistent(it) && it.shape == shape && it.seqNo <= NPlanes(shape)
      invariant |positions| == it.seqNo && |seqNos| == it.seqNo
      invariant forall k :: 0 <= k < |positions| ==> seqNos[k] == k
      invariant forall k :: 0 <= k < |positions| ==> positions[k] == [0, 0] + PositionOf(k, Outer(shape))
      decreases NPlanes(shape) - it.seqNo
    {
      var pos := PlanePosition(it);
      assert pos == [0, 0] + PositionOf(it.seqNo, Outer(shape));
      positions := positions + [pos];
      seqNos := seqNos + [it.seqNo];
      it := Next(it);
    }
  }

  // --------------------------------------------- the (2,2,4,3,1) cube

  const CubeShape: Shape := [2, 2, 4, 3, 1]

  lemma CubeOuterPosition(k: nat)
    requires k < 12
    ensures NPlanes(CubeShape) == 12
    ensures PositionOf(k, Outer(CubeShape)) == [k % 4, k / 4, 0]
  {
    var outer := Outer(CubeShape);
    assert outer == [4, 3, 1] && outer[1..] == [3, 1] && outer[1..][1..] == [1];
    assert Product([1]) == 1 && Product([3, 1]) == 3;
    assert PositionOf((k / 4) / 3, [1]) == [0];
    assert PositionOf(k / 4, [3, 1]) == [k / 4, 0];
  }

  /** A 2x2 image of 4 polarisations and 3 channels has 12 planes; plane `k` sits at (0,0,k%4,k/4,0), is tagged `.pol<k%4>.chan<k/4>`, and has shape (2,2,1,1,1). */
  lemma CubeIteration(it: Iter)
    requires Consistent(it) && it.shape == CubeShape && HasMore(it)
    ensures NPlanes(CubeShape) == 12 && it.seqNo < 12
    ensures PlanePosition(it) == [0, 0, it.seqNo % 4, it.seqNo / 4, 0]
    ensures Tag(it) == ".pol" + NatToString(it.seqNo % 4) + ".chan" + NatToString(it.seqNo / 4)
    ensures PlaneShape(it.shape) == [2, 2, 1, 1, 1] && PlaneSize(it.shape) == 4
  {
    assert Outer(CubeShape) == [4, 3, 1];
    assert Product([1]) == 1 && Product([3, 1]) == 3 && Product([4, 3, 1]) == 12;
    CubeOuterPosition(it.seqNo);
    var pos := PlanePosition(it);
    assert pos == [0, 0] + [it.seqNo % 4, it.seqNo / 4, 0];
    assert Ones(3) == [1, 1, 1] by {
      assert Ones(1) == [1] && Ones(2) == [1, 1];
    }
  }

  /** Each of the cube's twelve planes gets its own tag. */
  lemma CubeTagsDistinct(a: Iter, b: Iter)
    requires Consistent(a) && a.shape == CubeShape && HasMore(a)
    requires Consistent(b) && b.shape == CubeShape && HasMore(b)
    ensures Tag(a) == Tag(b) <==> a.seqNo == b.seqNo
  {
    CubeIteration(a);
    CubeIteration(b);
    TagIdentifiesPlane(a, b);
  }
}
