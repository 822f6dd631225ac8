/** The few NumPy arrays the simulator touches: an array of reals with its
    shape, and the reduction `np.max`. */
module NdArrays {

  function Product(dims: seq<nat>): nat
  {
    if dims == [] then 1 else dims[0] * Product(dims[1..])
  }

  /** An `ndarray` of reals: its `shape` and its entries in row-major order. */
  datatype NdArray = NdArray(shape: seq<nat>, data: seq<real>)
  {
    /** The entries fill the shape exactly, as in every NumPy array. */
    predicate Valid()
    {
      |data| == Product(shape)
    }

    /** `ndim`. */
    function Rank(): nat
    {
      |shape|
    }

    /** `a[k]` of a two-dimensional array. */
    function Row(k: nat): (r: seq<real>)
      requires Valid() && Rank() == 2 && k < shape[0]
      ensures |r| == shape[1]
      ensures forall j :: 0 <= j < shape[1] ==> k * shape[1] + j < |data| && r[j] == data[k * shape[1] + j]
    {
      var n := shape[1];
      ProductOfPair(shape);
      MulLeftMonotone(k + 1, shape[0], n);
      data[k * n .. (k + 1) * n]
    }
  }

  lemma ProductOfPair(dims: seq<nat>)
    requires |dims| == 2
    ensures Product(dims) == dims[0] * dims[1]
  {
    assert dims[1..][1..] == [];
    assert Product(dims[1..]) == dims[1] * Product([]);
  }

  lemma MulLeftMonotone(a: nat, b: nat, c: nat)
    requires a <= b
    ensures a * c <= b * c
  {
  }

  /** A one-dimensional array holding `v`. */
  function Vector(v: seq<real>): (a: NdArray)
    ensures a.Valid() && a.Rank() == 1 && a.data == v
  {
    NdArray([|v|], v)
  }

  /** `np.max` of a non-empty one-dimensional array: an entry no entry exceeds. */
  function Max(s: seq<real>): (m: real)
    requires |s| > 0
    ensures m in s
    ensures forall i :: 0 <= i < |s| ==> s[i] <= m
    decreases |s|
  {
    if |s| == 1 then s[0]
    else
      var rest := Max(s[1..]);
      if s[0] >= rest then s[0] else rest
  }

  /** NumPy's message when `np.max` is applied to an empty array. */
  const EmptyMaxMessage: string := "zero-size array to reduction operation maximum which has no identity"
}
