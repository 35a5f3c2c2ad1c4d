/**
  Shape of a decoded CBF array.

  libcbf reports three axis dimensions (fast, mid, slow) and an element
  count. A zero dimension means "axis not declared", so the wrapper finds
  the first declared axis counting from the slow side; that axis fixes
  the rank. With no declared axis the array is flat with `nelem`
  elements. Shapes are listed slowest axis first (numpy order).
*/
module Shape {

  /** The cascade of `get_arrayparameters`. */
  function ShapeOf(dimslow: nat, dimmid: nat, dimfast: nat, nelem: nat): (shape: seq<nat>)
    ensures 1 <= |shape| <= 3
    ensures shape[|shape| - 1] == (if dimslow == dimmid == dimfast == 0 then nelem else dimfast)
  {
    if dimslow != 0 then [dimslow, dimmid, dimfast]
    else if dimmid != 0 then [dimmid, dimfast]
    else if dimfast != 0 then [dimfast]
    else [nelem]
  }

  /** Index of the first non-zero entry of `dims`, or `|dims|` when all are zero. */
  function FirstDeclared(dims: seq<nat>): (k: nat)
    ensures k <= |dims|
    ensures forall j :: 0 <= j < k ==> dims[j] == 0
    ensures k < |dims| ==> dims[k] != 0
  {
    if |dims| == 0 then 0
    else if dims[0] != 0 then 0
    else 1 + FirstDeclared(dims[1..])
  }

  /**
    The cascade agrees with the reference rule: drop the undeclared axes
    on the slow side and keep the rest, or fall back to the flat count.
  */
  lemma ShapeIsDeclaredSuffix(dimslow: nat, dimmid: nat, dimfast: nat, nelem: nat)
    ensures var dims := [dimslow, dimmid, dimfast];
            var k := FirstDeclared(dims);
            ShapeOf(dimslow, dimmid, dimfast, nelem) == (if k < 3 then dims[k..] else [nelem])
  {
    var dims := [dimslow, dimmid, dimfast];
    var k := FirstDeclared(dims);
    if dimslow != 0 {
      assert k == 0;
    } else if dimmid != 0 {
      assert dims[1..] == [dimmid, dimfast];
      assert FirstDeclared(dims[1..]) == 0;
    } else if dimfast != 0 {
      assert dims[1..] == [0, dimfast] && dims[1..][1..] == [dimfast];
      assert FirstDeclared(dims[1..][1..]) == 0;
      assert FirstDeclared(dims[1..]) == 1;
    } else {
      assert k == 3;
    }
  }

  /** The rank is 3 minus the number of leading undeclared axes (at least 1). */
  lemma RankFromSlowSide(dimslow: nat, dimmid: nat, dimfast: nat, nelem: nat)
    ensures var shape := ShapeOf(dimslow, dimmid, dimfast, nelem);
            && (dimslow != 0 <==> |shape| == 3)
            && (dimslow == 0 && dimmid != 0 <==> |shape| == 2)
            && (dimslow == 0 && dimmid == 0 <==> |shape| == 1)
  {
  }

  /** The leading entry of the shape is the first declared axis, hence non-zero unless the array is flat. */
  lemma LeadingAxisDeclared(dimslow: nat, dimmid: nat, dimfast: nat, nelem: nat)
    requires dimslow != 0 || dimmid != 0 || dimfast != 0
    ensures ShapeOf(dimslow, dimmid, dimfast, nelem)[0] != 0
  {
  }

  /** `np.prod(shape)`: the number of elements the shape holds. */
  function Product(shape: seq<nat>): (n: nat)
    ensures (exists i :: 0 <= i < |shape| && shape[i] == 0) ==> n == 0
    ensures (forall i :: 0 <= i < |shape| ==> shape[i] != 0) ==> n != 0
  {
    if |shape| == 0 then 1
    else
      assert forall i :: 1 <= i < |shape| ==> shape[1..][i - 1] == shape[i];
      shape[0] * Product(shape[1..])
  }

  /** A flat array holds exactly `nelem` elements. */
  lemma FlatShapeHoldsNelem(nelem: nat)
    ensures Product(ShapeOf(0, 0, 0, nelem)) == nelem
  {
    assert ShapeOf(0, 0, 0, nelem)[1..] == [];
  }

  /** Sample shapes for 3, 2, 1 and 0 declared axes: (5,4,3), (4,3), (3,) and the flat (7,). */
  lemma ShapeExamples()
    ensures ShapeOf(5, 4, 3, 60) == [5, 4, 3] && Product([5, 4, 3]) == 60
    ensures ShapeOf(0, 4, 3, 12) == [4, 3]
    ensures ShapeOf(0, 0, 3, 3) == [3]
    ensures ShapeOf(0, 0, 0, 7) == [7]
  {
    assert [5, 4, 3][1..] == [4, 3];
    assert [4, 3][1..] == [3];
    assert [3][1..] == [];
  }
}
