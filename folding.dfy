/**
 * What `OffsetInst::accumulateConstantOffset` reads off the arena: whether
 * every scanned operand use targets an integer constant, and the constants'
 * payloads in operand order.
 */
module Folding {
  import opened Wrappers
  import opened Types
  import opened Kinds
  import opened DefUse
  import opened Tables
  import opened Arenas

  /**
   * The use targets a `ConstantInt` (`dyn_cast<ConstantInt>` succeeds); a
   * use that targets nothing does not.
   */
  ghost predicate IsConstInt(a: Arena, u: UseId)
  {
    && u in a.target && a.target[u].Some? && a.target[u].value in a.kind
    && ConstantIntClassof(a.kind[a.target[u].value]) && a.target[u].value in a.intValue
  }

  /** Every use in `us` targets an integer constant. */
  ghost predicate AllConstant(a: Arena, us: seq<UseId>)
  {
    forall k | 0 <= k < |us| :: IsConstInt(a, us[k])
  }

  /** The payloads of the constants the uses target, in order. */
  ghost function ConstantsOf(a: Arena, us: seq<UseId>): (r: seq<nat>)
    requires AllConstant(a, us)
    ensures |r| == |us|
    ensures forall k | 0 <= k < |us| :: r[k] == a.intValue[a.target[us[k]].value]
  {
    if us == [] then []
    else ConstantsOf(a, us[..|us| - 1]) + [a.intValue[a.target[us[|us| - 1]].value]]
  }

  /** Extending an all-constant scan by one more constant appends its payload. */
  lemma ConstantsOfSnoc(a: Arena, us: seq<UseId>, k: nat)
    requires k < |us| && AllConstant(a, us[..k]) && IsConstInt(a, us[k])
    ensures AllConstant(a, us[..k + 1])
    ensures ConstantsOf(a, us[..k + 1]) == ConstantsOf(a, us[..k]) + [a.intValue[a.target[us[k]].value]]
  {
    var r := us[..k + 1];
    assert r[..k] == us[..k];
    forall j | 0 <= j < k + 1 ensures IsConstInt(a, r[j]) {
      if j < k { assert r[j] == us[..k][j]; }
    }
  }

  /**
   * A well-typed offset's operand 0 targets a pointer, and no integer
   * constant is a pointer: a scan over all operands, the pointer included,
   * always stops at operand 0.
   */
  lemma PointerOperandStopsFold(a: Arena, i: ValueId)
    requires Inv(a) && i in a.offsets
    requires var u := a.operands[i][0];
      a.target[u].Some? && a.target[u].value in a.valueType && PointerClassof(a.valueType[a.target[u].value])
    ensures !AllConstant(a, a.operands[i])
  {
    var p := a.target[a.operands[i][0]].value;
    assert p in a.kind && !ConstantIntClassof(a.kind[p]);
  }

  /**
   * The operand scan of `accumulateConstantOffset`: walks the uses in
   * order, gives up at the first one that does not target an integer
   * constant, and otherwise collects the constants' payloads in order.
   */
  method ScanConstants(a: Arena, us: seq<UseId>) returns (ok: bool, indices: seq<nat>)
    requires Inv(a) && forall k | 0 <= k < |us| :: us[k] in a.target
    ensures ok <==> AllConstant(a, us)
    ensures ok ==> indices == ConstantsOf(a, us)
  {
    indices := [];
    var k := 0;
    while k < |us|
      invariant k <= |us| && AllConstant(a, us[..k]) && indices == ConstantsOf(a, us[..k])
    {
      var t := a.target[us[k]];
      if t.Some? && t.value in a.kind && ConstantIntClassof(a.kind[t.value]) {
        ConstIntPayload(a.kind, a.valueType, a.name, a.intValue, a.users, a.nextValue, t.value);
        ConstantsOfSnoc(a, us, k);
        indices := indices + [a.intValue[t.value]];
        k := k + 1;
      } else {
        assert !IsConstInt(a, us[k]);
        return false, indices;
      }
    }
    assert us[..k] == us;
    ok := true;
  }
}
