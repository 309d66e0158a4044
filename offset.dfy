/**
 * Constant folding of `OffsetInst` addresses, and the operand-count check an
 * `OffsetInst` makes when it is built.
 *
 * Two stride formulas are given. `CodeStrides` is what
 * `accumulateConstantOffset` computes: the bounds after the first one, then
 * 1. `RowMajorStrides` is what its documentation describes: the stride of a
 * dimension is the product of all bounds to its right. They differ as soon
 * as there are three dimensions (`CodeOffsetExample`, `RowMajorExample`).
 */
module OffsetFold {
  import opened Wrappers
  import opened Types

  /** `std::size_t` arithmetic is modulo 2^64. */
  const SizeModulus: nat := 0x1_0000_0000_0000_0000

  /** Every bound but the outermost is present (the outermost may be `None`). */
  predicate InnerBoundsPresent(bounds: seq<Option<nat>>)
  {
    forall k :: 1 <= k < |bounds| ==> bounds[k].Some?
  }

  /** `sum_{d < |idx|} idx[d] * strides[d]`, accumulated from the first dimension on. */
  function WeightedSum(idx: seq<nat>, strides: seq<nat>): nat
    requires |idx| <= |strides|
  {
    if idx == [] then 0
    else WeightedSum(idx[..|idx| - 1], strides) + idx[|idx| - 1] * strides[|idx| - 1]
  }

  /**
   * The strides `accumulateConstantOffset` uses as written: the value of each
   * bound after the first, then 1.
   */
  function CodeStrides(bounds: seq<Option<nat>>): (r: seq<nat>)
    requires |bounds| >= 1 && InnerBoundsPresent(bounds)
    ensures |r| == |bounds|
    ensures forall k :: 0 <= k < |bounds| - 1 ==> r[k] == bounds[k + 1].value
    ensures r[|bounds| - 1] == 1
  {
    if |bounds| == 1 then [1] else [bounds[1].value] + CodeStrides(bounds[1..])
  }

  /** The offset as `accumulateConstantOffset` computes it from the scanned constants. */
  function CodeOffset(indices: seq<nat>, bounds: seq<Option<nat>>): nat
    requires |bounds| >= 1 && InnerBoundsPresent(bounds)
    requires |indices| <= |bounds|
  {
    WeightedSum(indices, CodeStrides(bounds))
  }

  /**
   * Row-major strides: the innermost stride is 1, and each stride is the
   * next one multiplied by the next bound, so the stride of a dimension is
   * the product of the bounds strictly to its right.
   */
  function RowMajorStrides(bounds: seq<Option<nat>>): (r: seq<nat>)
    requires InnerBoundsPresent(bounds)
    ensures |r| == |bounds|
    ensures |bounds| > 0 ==> r[|bounds| - 1] == 1
    ensures forall k :: 0 <= k < |bounds| - 1 ==> r[k] == bounds[k + 1].value * r[k + 1]
  {
    if |bounds| == 0 then []
    else if |bounds| == 1 then [1]
    else
      var rest := RowMajorStrides(bounds[1..]);
      [bounds[1].value * rest[0]] + rest
  }

  /** The row-major offset of an index list within a region with the given bounds. */
  function RowMajorOffset(indices: seq<nat>, bounds: seq<Option<nat>>): nat
    requires |indices| == |bounds| && InnerBoundsPresent(bounds)
  {
    WeightedSum(indices, RowMajorStrides(bounds))
  }

  /**
   * The summation loop of `accumulateConstantOffset`: adds up each index
   * times its dimension's stride.
   */
  method SumOffsets(indices: seq<nat>, strides: seq<nat>) returns (total: nat)
    requires |indices| <= |strides|
    ensures total == WeightedSum(indices, strides)
  {
    total := 0;
    var dim := 0;
    while dim < |indices|
      invariant dim <= |indices| && total == WeightedSum(indices[..dim], strides)
    {
      assert indices[..dim + 1][..dim] == indices[..dim];
      total := total + indices[dim] * strides[dim];
      dim := dim + 1;
    }
    assert indices[..dim] == indices;
  }

  /** Unfolds `WeightedSum` over three literal index values. */
  lemma WeightedSum3(a: nat, b: nat, c: nat, s: seq<nat>)
    requires |s| >= 3
    ensures WeightedSum([a, b, c], s) == a * s[0] + b * s[1] + c * s[2]
  {
    var idx: seq<nat> := [a, b, c];
    assert idx[..2] == [a, b] && idx[..2][..1] == [a] && idx[..2][..1][..0] == [];
    assert WeightedSum([a], s) == a * s[0];
    assert WeightedSum([a, b], s) == a * s[0] + b * s[1];
  }

  /**
   * The documented example: in `int g[3][4][5]`, `&g[1][2][3]` has bounds
   * [3, 4, 5] and lies 1*(4*5) + 2*5 + 3*1 = 33 elements in.
   */
  lemma RowMajorExample()
    ensures RowMajorOffset([1, 2, 3], [Some(3), Some(4), Some(5)]) == 33
  {
    var b: seq<Option<nat>> := [Some(3), Some(4), Some(5)];
    var s := RowMajorStrides(b);
    assert s[2] == 1 && s[1] == 5 && s[0] == 20;
    WeightedSum3(1, 2, 3, s);
  }

  /**
   * The same indices and bounds, folded with the strides the code uses,
   * give 1*4 + 2*5 + 3*1 = 17, not 33.
   */
  lemma CodeOffsetExample()
    ensures CodeOffset([1, 2, 3], [Some(3), Some(4), Some(5)]) == 17
    ensures CodeOffset([1, 2, 3], [Some(3), Some(4), Some(5)]) != RowMajorOffset([1, 2, 3], [Some(3), Some(4), Some(5)])
  {
    var b: seq<Option<nat>> := [Some(3), Some(4), Some(5)];
    var s := CodeStrides(b);
    assert s[0] == 4 && s[1] == 5 && s[2] == 1;
    WeightedSum3(1, 2, 3, s);
    RowMajorExample();
  }

  /**
   * Row-major offsets of in-bounds indices stay inside their outer row: with
   * every inner index below its bound, the offset is less than
   * (outer index + 1) times the outer stride, the product of the inner bounds.
   */
  lemma RowMajorInRegion(indices: seq<nat>, bounds: seq<Option<nat>>)
    requires |indices| == |bounds| >= 1 && InnerBoundsPresent(bounds)
    requires forall k :: 1 <= k < |bounds| ==> indices[k] < bounds[k].value
    ensures RowMajorOffset(indices, bounds) < (indices[0] + 1) * RowMajorStrides(bounds)[0]
  {
    var s := RowMajorStrides(bounds);
    PrefixBound(indices, s, bounds, |indices|);
    PositiveStrides(bounds, |indices| - 1);
    assert indices[..|indices|] == indices;
  }

  /**
   * For m >= 1, the first m terms of the sum plus the stride of dimension
   * m - 1 never exceed (idx[0] + 1) * s[0]: each inner term idx[k] * s[k] is
   * at most (bounds[k] - 1) * s[k] = s[k - 1] - s[k].
   */
  lemma {:induction false} PrefixBound(indices: seq<nat>, s: seq<nat>, bounds: seq<Option<nat>>, m: nat)
    requires |indices| == |bounds| && InnerBoundsPresent(bounds)
    requires s == RowMajorStrides(bounds)
    requires forall k :: 1 <= k < |bounds| ==> indices[k] < bounds[k].value
    requires 1 <= m <= |indices|
    ensures WeightedSum(indices[..m], s) + s[m - 1] <= (indices[0] + 1) * s[0]
  {
    var p := indices[..m];
    assert p[..m - 1] == indices[..m - 1];
    if m == 1 {
      assert p[..0] == [];
    } else {
      PrefixBound(indices, s, bounds, m - 1);
      assert s[m - 2] == bounds[m - 1].value * s[m - 1];
      MulMono(indices[m - 1], bounds[m - 1].value - 1, s[m - 1]);
      assert (bounds[m - 1].value - 1) * s[m - 1] == s[m - 2] - s[m - 1];
    }
  }

  /** Strides are positive from dimension k inwards when those bounds are. */
  lemma {:induction false} PositiveStrides(bounds: seq<Option<nat>>, k: nat)
    requires InnerBoundsPresent(bounds) && k < |bounds|
    requires forall j :: k < j < |bounds| ==> bounds[j].value > 0
    ensures RowMajorStrides(bounds)[k] > 0
    decreases |bounds| - k
  {
    var s := RowMajorStrides(bounds);
    if k < |bounds| - 1 {
      PositiveStrides(bounds, k + 1);
      assert s[k] == bounds[k + 1].value * s[k + 1];
    }
  }

  lemma MulMono(a: nat, b: nat, c: nat)
    requires a <= b
    ensures a * c <= b * c
  {
  }

  /**
   * `OffsetInst::AssertOK` as written: the pointer operand has pointer type
   * whose element type is the offset's element type, and the instruction's
   * own use count (`getNumUses`) is one more than the number of bounds.
   */
  predicate OffsetAssertOKAsWritten(ptrTy: Ty, elemTy: Ty, numUses: nat, bounds: seq<Option<nat>>)
  {
    PointerClassof(ptrTy) && GetElementType(ptrTy) == elemTy && numUses == |bounds| + 1
  }

  /**
   * An instruction nobody uses yet (every freshly built one) fails the
   * as-written check, whatever its operands and bounds: as written, building
   * an `OffsetInst` always trips the assertion.
   */
  lemma FreshOffsetFailsAssertOK(ptrTy: Ty, elemTy: Ty, bounds: seq<Option<nat>>)
    ensures !OffsetAssertOKAsWritten(ptrTy, elemTy, 0, bounds)
  {
  }

  /**
   * The intended check: the number of operands (pointer and indices) is one
   * more than the number of bounds, so there is one index per bound.
   */
  predicate OffsetAssertOK(ptrTy: Ty, elemTy: Ty, numOperands: nat, bounds: seq<Option<nat>>)
  {
    PointerClassof(ptrTy) && GetElementType(ptrTy) == elemTy && numOperands == |bounds| + 1
  }

  /**
   * The intended check accepts exactly the well-typed offsets that carry
   * one index per bound, including freshly built ones.
   */
  lemma OffsetAssertOKAccepts(elemTy: Ty, indices: nat, bounds: seq<Option<nat>>)
    ensures OffsetAssertOK(Pointer(elemTy), elemTy, indices + 1, bounds) <==> indices == |bounds|
  {
  }
}
