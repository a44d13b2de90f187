// Positions in an N-dimensional array walked as an odometer, dimension 0
// fastest (the casacore `IPosition` order). A position corresponds to the
// column-major linear index; stepping the odometer adds one to that index
// and wraps to the origin after the last element.

module Odometer {
  type Shape = seq<nat>
  type Position = seq<nat>

  /** The number of elements, `IPosition::product`. */
  function Product(shape: Shape): nat
  {
    if |shape| == 0 then 1 else shape[0] * Product(shape[1..])
  }

  predicate InBounds(pos: Position, shape: Shape)
  {
    |pos| == |shape| && forall d :: 0 <= d < |shape| ==> pos[d] < shape[d]
  }

  /** Column-major linear index of a position. */
  function Index(pos: Position, shape: Shape): nat
    requires |pos| == |shape|
  {
    if |shape| == 0 then 0 else pos[0] + shape[0] * Index(pos[1..], shape[1..])
  }

  /** The position whose column-major index is `i`. */
  function PositionOf(i: nat, shape: Shape): (pos: Position)
    requires i < Product(shape)
    ensures |pos| == |shape|
    decreases |shape|
  {
    if |shape| == 0 then []
    else
      var rest := shape[1..];
      assert i < shape[0] * Product(rest);
      PositiveFactor(i, shape[0], Product(rest));
      DivBelow(i, shape[0], Product(rest));
      var q := i / shape[0];
      [i % shape[0]] + PositionOf(q, rest)
  }

  /**
   * One step of the odometer: increment dimension 0; a digit that reaches
   * its extent is reset to 0 and the carry moves to the next dimension.
   * Past the last element every digit has been reset.
   */
  function Advance(pos: Position, shape: Shape): (r: Position)
    requires |pos| == |shape|
    ensures |r| == |shape|
  {
    if |shape| == 0 then pos
    else if pos[0] + 1 < shape[0] then [pos[0] + 1] + pos[1..]
    else [0] + Advance(pos[1..], shape[1..])
  }

  /** The origin, where the walk starts (`IPosition(n, 0)`). */
  function Origin(n: nat): (pos: Position)
    ensures |pos| == n && forall d :: 0 <= d < n ==> pos[d] == 0
  {
    seq(n, d => 0)
  }

  // ------------------------------------------------------------ arithmetic

  lemma MulLe(a: nat, b: nat, c: nat)
    requires b <= c
    ensures a * b <= a * c
  {
  }

  lemma PositiveFactor(i: nat, a: nat, b: nat)
    requires i < a * b
    ensures a > 0 && b > 0
  {
  }

  lemma DivBelow(i: nat, s: nat, p: nat)
    requires s > 0 && i < s * p
    ensures i / s < p
  {
    if i / s >= p {
      MulLe(s, p, i / s);
    }
  }

  lemma MulPred(a: nat, b: nat)
    requires b > 0
    ensures a * (b - 1) == a * b - a
  {
  }

  lemma DivMod(i: nat, s: nat)
    requires s > 0
    ensures i == i % s + s * (i / s)
  {
  }

  lemma DivModOf(p: nat, s: nat, q: nat)
    requires p < s
    ensures (p + s * q) % s == p && (p + s * q) / s == q
  {
    var n := p + s * q;
    var q', p' := n / s, n % s;
    assert s * q' + p' == s * q + p;
    if q' < q {
      MulLe(s, q' + 1, q);
    } else if q' > q {
      MulLe(s, q + 1, q');
    }
  }

  // ----------------------------------------------------------- properties

  lemma {:induction false} IndexBound(pos: Position, shape: Shape)
    requires InBounds(pos, shape)
    ensures Index(pos, shape) < Product(shape)
  {
    if |shape| > 0 {
      var tail, rest := pos[1..], shape[1..];
      assert InBounds(tail, rest) by {
        forall d | 0 <= d < |rest| ensures tail[d] < rest[d] {
          assert tail[d] == pos[d + 1];
        }
      }
      IndexBound(tail, rest);
      MulLe(shape[0], Index(tail, rest), Product(rest) - 1);
      MulPred(shape[0], Product(rest));
    }
  }

  /** Positions and indices are inverse: index of the position of `i` is `i`. */
  lemma {:induction false} IndexOfPosition(i: nat, shape: Shape)
    requires i < Product(shape)
    ensures InBounds(PositionOf(i, shape), shape)
    ensures Index(PositionOf(i, shape), shape) == i
    decreases |shape|
  {
    if |shape| > 0 {
      var rest := shape[1..];
      DivBelow(i, shape[0], Product(rest));
      IndexOfPosition(i / shape[0], rest);
      var pos := PositionOf(i, shape);
      assert pos[1..] == PositionOf(i / shape[0], rest);
      assert pos[0] == i % shape[0];
      DivMod(i, shape[0]);
      forall d | 0 <= d < |shape| ensures pos[d] < shape[d] {
        if d > 0 {
          assert pos[d] == pos[1..][d - 1];
        }
      }
    }
  }

  /** ... and the position of the index of an in-bounds position is that position. */
  lemma {:induction false} PositionOfIndex(pos: Position, shape: Shape)
    requires InBounds(pos, shape)
    ensures Index(pos, shape) < Product(shape)
    ensures PositionOf(Index(pos, shape), shape) == pos
  {
    IndexBound(pos, shape);
    if |shape| > 0 {
      var tail, rest := pos[1..], shape[1..];
      assert InBounds(tail, rest) by {
        forall d | 0 <= d < |rest| ensures tail[d] < rest[d] {
          assert tail[d] == pos[d + 1];
        }
      }
      PositionOfIndex(tail, rest);
      DivModOf(pos[0], shape[0], Index(tail, rest));
      assert pos == [pos[0]] + tail;
    }
  }

  /** Distinct indices below the product name distinct positions. */
  lemma PositionOfInjective(i: nat, j: nat, shape: Shape)
    requires i < Product(shape) && j < Product(shape) && i != j
    ensures PositionOf(i, shape) != PositionOf(j, shape)
  {
    IndexOfPosition(i, shape);
    IndexOfPosition(j, shape);
  }

  lemma NoCarryArith(p: nat, s: nat, t: nat, q: nat)
    requires p + 1 < s && t < q
    ensures p + 1 + s * t < s * q
  {
    MulLe(s, t, q - 1);
  }

  lemma CarryArith(s: nat, t: nat, q: nat)
    requires s > 0 && t < q
    ensures (s - 1 + s * t) + 1 == s * (t + 1)
    ensures t + 1 < q ==> s * (t + 1) < s * q
  {
    if t + 1 < q {
      MulLe(s, t + 1, q - 1);
    }
  }

  /** The odometer never leaves the array. */
  lemma {:induction false} AdvanceInBounds(pos: Position, shape: Shape)
    requires InBounds(pos, shape)
    ensures InBounds(Advance(pos, shape), shape)
  {
    if |shape| > 0 {
      var tail, rest := pos[1..], shape[1..];
      var next := Advance(pos, shape);
      if pos[0] + 1 < shape[0] {
        assert next[1..] == tail;
      } else {
        assert InBounds(tail, rest) by {
          forall d | 0 <= d < |rest| ensures tail[d] < rest[d] {
            assert tail[d] == pos[d + 1];
          }
        }
        AdvanceInBounds(tail, rest);
        assert next[1..] == Advance(tail, rest);
      }
      forall d | 0 <= d < |shape| ensures next[d] < shape[d] {
        if d > 0 {
          assert next[d] == next[1..][d - 1];
        }
      }
    }
  }

  /** Stepping the odometer adds one to the index, wrapping to 0 after the last element. */
  lemma {:induction false} AdvanceIndex(pos: Position, shape: Shape)
    requires InBounds(pos, shape)
    ensures Index(Advance(pos, shape), shape) == if Index(pos, shape) + 1 < Product(shape) then Index(pos, shape) + 1 else 0
  {
    if |shape| > 0 {
      var tail, rest := pos[1..], shape[1..];
      assert InBounds(tail, rest) by {
        forall d | 0 <= d < |rest| ensures tail[d] < rest[d] {
          assert tail[d] == pos[d + 1];
        }
      }
      IndexBound(tail, rest);
      var it := Index(tail, rest);
      if pos[0] + 1 < shape[0] {
        assert Advance(pos, shape)[1..] == tail;
        NoCarryArith(pos[0], shape[0], it, Product(rest));
      } else {
        AdvanceIndex(tail, rest);
        assert Advance(pos, shape)[1..] == Advance(tail, rest);
        CarryArith(shape[0], it, Product(rest));
      }
    }
  }

  /** Stepping from the position of `i` reaches the position of `i + 1`. */
  lemma AdvancePosition(i: nat, shape: Shape)
    requires i + 1 < Product(shape)
    ensures Advance(PositionOf(i, shape), shape) == PositionOf(i + 1, shape)
  {
    IndexOfPosition(i, shape);
    AdvanceInBounds(PositionOf(i, shape), shape);
    AdvanceIndex(PositionOf(i, shape), shape);
    PositionOfIndex(Advance(PositionOf(i, shape), shape), shape);
  }

  /** The walk starts at index 0. */
  lemma OriginIsFirst(shape: Shape)
    requires Product(shape) > 0
    ensures PositionOf(0, shape) == Origin(|shape|)
    decreases |shape|
  {
    if |shape| > 0 {
      var rest := shape[1..];
      PositiveFactor(0, shape[0], Product(rest));
      OriginIsFirst(rest);
      assert PositionOf(0, shape) == [0] + PositionOf(0, rest);
    }
  }
}
