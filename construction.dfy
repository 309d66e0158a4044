/**
 * The proof that the `Instruction` constructor builds what `Built`
 * describes: it starts from a fresh detached value, each operand step keeps
 * `Partial`, and placing the finished instruction gives `Built`.
 */
module Construction {
  import opened Wrappers
  import opened Seqs
  import opened Types
  import opened Kinds
  import opened DefUse
  import opened Tables
  import opened Arenas

  /** The first step: a fresh instruction value with no operands yet. */
  lemma PartialStart(a0: Arena, i: ValueId, opcode: nat, ty: Ty, ops: seq<Option<ValueId>>)
    requires Inv(a0) && IsOpcode(opcode) && i == a0.nextValue && i !in a0.kind
    ensures var a := a0.(kind := a0.kind[i := KindOfOpcode(opcode)], valueType := a0.valueType[i := ty],
                         name := a0.name[i := ""], users := a0.users[i := []], nextValue := i + 1);
      && i in a.kind && InstructionClassof(a.kind[i]) && i !in a.operands
      && Partial(a0, a.(operands := a.operands[i := []], parent := a.parent[i := None]), i, opcode, ty, ops, 0)
  {
  }

  /** One more operand keeps the constructor's progress. */
  lemma PartialStep(a0: Arena, a: Arena, i: ValueId, opcode: nat, ty: Ty, ops: seq<Option<ValueId>>, k: nat)
    requires IsOpcode(opcode) && Partial(a0, a, i, opcode, ty, ops, k) && k < |ops|
    requires forall m | 0 <= m < |ops| && ops[m].Some? :: ops[m].value in a0.users
    requires i !in a0.users && i !in a0.operands && a0.offsets.Keys <= a0.operands.Keys
    requires a.nextUse !in a.target && a.nextUse !in a.owner && Consistent(a.target, a.users)
    ensures i in a.operands && i !in a.offsets && (ops[k].Some? ==> ops[k].value in a.users)
    ensures Partial(a0, WithOperand(a, i, ops[k]), i, opcode, ty, ops, k + 1)
  {
    assert ops[k].Some? ==> ops[k].value in a0.users;
    WithOperandEffect(a, i, ops[k]);
    ValueStep(a0, a, i, opcode, ty, ops[k]);
    ListsStep(a0, a, i, ops[k]);
    UsesStep(a0, a, i, ops, k);
  }

  lemma ValueStep(a0: Arena, a: Arena, i: ValueId, opcode: nat, ty: Ty, op: Option<ValueId>)
    requires IsOpcode(opcode) && PartialValue(a0, a, i, opcode, ty) && i in a.operands
    ensures PartialValue(a0, WithOperand(a, i, op), i, opcode, ty)
  {
  }

  lemma ListsStep(a0: Arena, a: Arena, i: ValueId, op: Option<ValueId>)
    requires PartialLists(a0, a, i) && i !in a0.operands && op != Some(i)
    requires Consistent(a.target, a.users) && a.nextUse !in a.target && (op.Some? ==> op.value in a.users)
    ensures PartialLists(a0, WithOperand(a, i, op), i)
  {
    WithOperandEffect(a, i, op);
  }

  lemma UsesStep(a0: Arena, a: Arena, i: ValueId, ops: seq<Option<ValueId>>, k: nat)
    requires PartialUses(a0, a, i, ops, k) && k < |ops|
    requires a.nextUse !in a.target && a.nextUse !in a.owner
    ensures PartialUses(a0, WithOperand(a, i, ops[k]), i, ops, k + 1)
  {
    var a' := WithOperand(a, i, ops[k]);
    assert a'.target == a.target[a.nextUse := ops[k]] by {
      UpdateTwice(a.target, a.nextUse, None, ops[k]);
    }
    forall m | 0 <= m < k + 1
      ensures && a'.operands[i][m] !in a0.target && a'.operands[i][m] in a'.target
              && a'.target[a'.operands[i][m]] == ops[m]
              && a'.operands[i][m] in a'.owner && a'.owner[a'.operands[i][m]] == Some(i)
    {
      if m < k {
        assert a'.operands[i][m] == a.operands[i][m];
      }
    }
  }

  /**
   * The constructor's last step: once every operand is in place, placing
   * `i` as `pos` says gives the arena `Built` describes.
   */
  lemma PartialPlaced(a0: Arena, a: Arena, i: ValueId, opcode: nat, ty: Ty, ops: seq<Option<ValueId>>,
                      pos: InsertPoint)
    requires IsOpcode(opcode) && Partial(a0, a, i, opcode, ty, ops, |ops|)
    requires CanPlace(a0, pos) && i !in a0.parent
    ensures CanPlace(a, pos)
    ensures Built(a0, Placed(a, i, pos), i, ty, opcode, ops, pos)
  {
    match pos {
      case Detached =>
      case Before(p) =>
        assert a.parent[p] == a0.parent[p];
        UpdateTwice(a0.parent, i, None, Some(a0.parent[p].value));
      case AtEnd(b) =>
        var s := a0.blocks[b];
        assert InsertAt(s, |s|, i) == s + [i];
        UpdateTwice(a0.parent, i, None, Some(b));
    }
  }
}
