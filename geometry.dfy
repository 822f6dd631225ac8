/** The two free functions of the simulator: the outer subtraction of a
    one-dimensional array with itself, and the magnitude of a field of
    two-dimensional vectors. */
module Geometry {
  import opened Results
  import opened Text
  import opened NdArrays

  /** A two-dimensional NumPy array, as its sequence of rows. */
  type Matrix = seq<seq<real>>

  ghost predicate IsRectangular(m: Matrix, rows: nat, cols: nat)
  {
    |m| == rows && forall i :: 0 <= i < rows ==> |m[i]| == cols
  }

  /** Two axis lengths broadcast against each other when they agree or one is 1. */
  predicate Broadcastable(a: nat, b: nat)
  {
    a == b || a == 1 || b == 1
  }

  function BroadcastLength(a: nat, b: nat): nat
  {
    if a == 1 then b else a
  }

  /** The index into an axis of length `len` that a broadcast index `i` reads. */
  function Pick(len: nat, i: nat): nat
  {
    if len == 1 then 0 else i
  }

  /** A one-dimensional array as NumPy broadcasts it against a matrix: shape (1, n). */
  function AsRow(v: seq<real>): (m: Matrix)
    ensures IsRectangular(m, 1, |v|) && m[0] == v
  {
    [v]
  }

  /** `v[:, np.newaxis]`: the array as a column, shape (n, 1). */
  function AsColumn(v: seq<real>): (m: Matrix)
    ensures IsRectangular(m, |v|, 1)
    ensures forall i :: 0 <= i < |v| ==> m[i][0] == v[i]
  {
    seq(|v|, i requires 0 <= i < |v| => [v[i]])
  }

  /** `x - y` for two matrices of shapes (xr, xc) and (yr, yc) under NumPy broadcasting. */
  function BroadcastSubtract(x: Matrix, xr: nat, xc: nat, y: Matrix, yr: nat, yc: nat): (m: Matrix)
    requires IsRectangular(x, xr, xc) && IsRectangular(y, yr, yc)
    requires Broadcastable(xr, yr) && Broadcastable(xc, yc)
    ensures IsRectangular(m, BroadcastLength(xr, yr), BroadcastLength(xc, yc))
    ensures forall i, j :: 0 <= i < |m| && 0 <= j < BroadcastLength(xc, yc) ==>
      Pick(xr, i) < xr && Pick(xc, j) < xc && Pick(yr, i) < yr && Pick(yc, j) < yc &&
      m[i][j] == x[Pick(xr, i)][Pick(xc, j)] - y[Pick(yr, i)][Pick(yc, j)]
  {
    var rows := BroadcastLength(xr, yr);
    var m := seq(rows, i requires 0 <= i < rows => BroadcastRow(x[Pick(xr, i)], xc, y[Pick(yr, i)], yc));
    assert forall i :: 0 <= i < rows ==>
      Pick(xr, i) < xr && Pick(yr, i) < yr && m[i] == BroadcastRow(x[Pick(xr, i)], xc, y[Pick(yr, i)], yc);
    m
  }

  /** One row of a broadcast subtraction: `u - w` for rows of lengths xc and yc. */
  function BroadcastRow(u: seq<real>, xc: nat, w: seq<real>, yc: nat): (r: seq<real>)
    requires |u| == xc && |w| == yc && Broadcastable(xc, yc)
    ensures |r| == BroadcastLength(xc, yc)
    ensures forall j :: 0 <= j < |r| ==>
      Pick(xc, j) < xc && Pick(yc, j) < yc && r[j] == u[Pick(xc, j)] - w[Pick(yc, j)]
  {
    var cols := BroadcastLength(xc, yc);
    seq(cols, j requires 0 <= j < cols => u[Pick(xc, j)] - w[Pick(yc, j)])
  }

  const DimensionPrefix: string := "Expected array of dimension 1, got: "

  function DimensionMessage(rank: nat): string
  {
    DimensionPrefix + NatToString(rank)
  }

  /** `outer_subtract_self`: for a one-dimensional `a` of length N, the N x N
      matrix whose entry (i, j) is `a[j] - a[i]`; any other rank raises a
      ValueError that names the rank. */
  function OuterSubtractSelf(a: NdArray): (r: Result<Matrix>)
    requires a.Valid()
    ensures r.Ok? <==> a.Rank() == 1
    ensures r.Ok? ==> IsRectangular(r.value, |a.data|, |a.data|)
    ensures r.Ok? ==> forall i, j :: 0 <= i < |a.data| && 0 <= j < |a.data| ==>
      r.value[i][j] == a.data[j] - a.data[i]
    ensures r.Err? ==> r.error == ValueError(DimensionMessage(a.Rank()))
  {
    if a.Rank() == 1 then
      var n := |a.data|;
      Ok(BroadcastSubtract(AsRow(a.data), 1, n, AsColumn(a.data), n, 1))
    else
      Err(ValueError(DimensionMessage(a.Rank())))
  }

  /** The difference matrix is antisymmetric and zero on its diagonal. */
  lemma OuterSubtractSelfAntisymmetric(a: NdArray, i: nat, j: nat)
    requires a.Valid() && a.Rank() == 1 && i < |a.data| && j < |a.data|
    ensures OuterSubtractSelf(a).value[i][j] == -OuterSubtractSelf(a).value[j][i]
    ensures OuterSubtractSelf(a).value[i][i] == 0.0
  {
  }

  /** The example of the suite in tests/test_simulation.py: [1, 2, 3]. */
  lemma OuterSubtractSelfExample()
    ensures OuterSubtractSelf(Vector([1.0, 2.0, 3.0])) ==
      Ok([[0.0, 1.0, 2.0], [-1.0, 0.0, 1.0], [-2.0, -1.0, 0.0]])
  {
    var v := Vector([1.0, 2.0, 3.0]);
    var m := OuterSubtractSelf(v).value;
    assert IsRectangular(m, 3, 3);
    assert m[0] == [0.0, 1.0, 2.0] by { assert m[0][0] == 0.0 && m[0][1] == 1.0 && m[0][2] == 2.0; }
    assert m[1] == [-1.0, 0.0, 1.0] by { assert m[1][0] == -1.0 && m[1][1] == 0.0 && m[1][2] == 1.0; }
    assert m[2] == [-2.0, -1.0, 0.0] by { assert m[2][0] == -2.0 && m[2][1] == -1.0 && m[2][2] == 0.0; }
    assert m == [m[0], m[1], m[2]];
  }

  /** An array of shape (1, 3) is rejected with a message naming rank 2. */
  lemma OuterSubtractSelfRejectsMatrix()
    ensures OuterSubtractSelf(NdArray([1, 3], [0.0, 0.0, 0.0])) ==
      Err(ValueError("Expected array of dimension 1, got: 2"))
  {
    assert Product([1, 3]) == 3 by { ProductOfPair([1, 3]); }
  }

  /** The error message reports the actual rank: it can be read back from the message. */
  lemma DimensionMessageReportsRank(rank: nat)
    ensures |DimensionMessage(rank)| > |DimensionPrefix|
    ensures DimensionMessage(rank)[..|DimensionPrefix|] == DimensionPrefix
    ensures ParseNat(DimensionMessage(rank)[|DimensionPrefix|..]) == rank
  {
    assert DimensionMessage(rank)[|DimensionPrefix|..] == NatToString(rank);
    ParseNatToString(rank);
  }

  function Abs(x: real): real
  {
    if x < 0.0 then -x else x
  }

  /** What the model knows of `np.sqrt(x**2 + y**2)`: it is non-negative, it
      is zero exactly when both components are, and it does not change when a
      component changes sign. */
  ghost predicate IsMagnitude(norm: (real, real) -> real)
  {
    (forall x, y :: 0.0 <= norm(x, y)) &&
    (forall x, y :: norm(x, y) == 0.0 <==> x == 0.0 && y == 0.0) &&
    (forall x, y, x', y' :: Abs(x') == Abs(x) && Abs(y') == Abs(y) ==> norm(x', y') == norm(x, y))
  }

  lemma MagnitudeAt(norm: (real, real) -> real, x: real, y: real)
    requires IsMagnitude(norm)
    ensures 0.0 <= norm(x, y) && (norm(x, y) == 0.0 <==> x == 0.0 && y == 0.0)
  {
  }

  lemma MagnitudesAt(norm: (real, real) -> real, xs: seq<real>, ys: seq<real>)
    requires IsMagnitude(norm) && |xs| == |ys|
    ensures forall i :: 0 <= i < |xs| ==>
      0.0 <= norm(xs[i], ys[i]) && (norm(xs[i], ys[i]) == 0.0 <==> xs[i] == 0.0 && ys[i] == 0.0)
  {
    forall i | 0 <= i < |xs|
      ensures 0.0 <= norm(xs[i], ys[i]) && (norm(xs[i], ys[i]) == 0.0 <==> xs[i] == 0.0 && ys[i] == 0.0)
    {
      MagnitudeAt(norm, xs[i], ys[i]);
    }
  }

  /** `vector_magnitude`: the magnitude of each vector of two parallel component arrays. */
  function VectorMagnitude(norm: (real, real) -> real, xs: seq<real>, ys: seq<real>): (r: seq<real>)
    requires IsMagnitude(norm) && |xs| == |ys|
    ensures |r| == |xs|
    ensures forall i :: 0 <= i < |r| ==> 0.0 <= r[i]
    ensures forall i :: 0 <= i < |r| ==> (r[i] == 0.0 <==> xs[i] == 0.0 && ys[i] == 0.0)
  {
    MagnitudesAt(norm, xs, ys);
    seq(|xs|, i requires 0 <= i < |xs| => norm(xs[i], ys[i]))
  }

  /** Magnitudes depend only on the absolute values of the components. */
  lemma MagnitudeIgnoresSigns(norm: (real, real) -> real, xs: seq<real>, ys: seq<real>, xs': seq<real>, ys': seq<real>)
    requires IsMagnitude(norm) && |xs| == |ys| == |xs'| == |ys'|
    requires forall i :: 0 <= i < |xs| ==> Abs(xs'[i]) == Abs(xs[i])
    requires forall i :: 0 <= i < |ys| ==> Abs(ys'[i]) == Abs(ys[i])
    ensures VectorMagnitude(norm, xs', ys') == VectorMagnitude(norm, xs, ys)
  {
    forall i | 0 <= i < |xs|
      ensures VectorMagnitude(norm, xs', ys')[i] == VectorMagnitude(norm, xs, ys)[i]
    {
      assert VectorMagnitude(norm, xs, ys)[i] == norm(xs[i], ys[i]);
      assert VectorMagnitude(norm, xs', ys')[i] == norm(xs'[i], ys'[i]);
    }
  }
}
