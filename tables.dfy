/**
 * The id-indexed tables of the IR, one predicate per group of fields, and
 * how each kind of step on those tables keeps its group well formed. The
 * predicates take the tables themselves, so that a step's proof only sees
 * the tables it changes.
 */
module Tables {
  import opened Wrappers
  import opened Seqs
  import opened Types
  import opened Kinds
  import opened DefUse

  type BlockId = int

  /** The fields an `OffsetInst` keeps besides its operands. */
  datatype OffsetData = OffsetData(elementTy: Ty, bounds: seq<Option<nat>>)

  /** `std::uint32_t`, the width of a `ConstantInt`. */
  const U32Modulus: nat := 0x1_0000_0000

  /**
   * Every value has a tag, a type, a name and a user list; constants have
   * no name, and every `ConstantInt` is of integer type and holds a 32-bit
   * payload.
   */
  ghost predicate ValuesOk(kind: map<ValueId, nat>, valueType: map<ValueId, Ty>, name: map<ValueId, string>,
                           intValue: map<ValueId, nat>, users: map<ValueId, seq<UseId>>, nextValue: nat)
  {
    && kind.Keys == valueType.Keys
    && kind.Keys == name.Keys
    && kind.Keys == users.Keys
    && (forall v | v in kind :: v < nextValue)
    && (forall v | v in kind && ConstantClassof(kind[v]) :: name[v] == "")
    && (forall v | v in kind && ConstantIntClassof(kind[v]) ::
          v in intValue && intValue[v] < U32Modulus && valueType[v] == Integer)
  }

  /** Every use records a user (possibly none) and ids are handed out in order. */
  ghost predicate UsesOk(target: map<UseId, Option<ValueId>>, owner: map<UseId, Option<ValueId>>, nextUse: nat)
  {
    && target.Keys == owner.Keys
    && (forall u | u in target :: u < nextUse)
  }

  /**
   * Every live instruction is a value with an instruction tag, a block
   * back-pointer and an operand vector of distinct, existing uses; an offset
   * has one operand more than it has bounds.
   */
  ghost predicate InstrsOk(kind: map<ValueId, nat>, operands: map<ValueId, seq<UseId>>,
                           parent: map<ValueId, Option<BlockId>>, offsets: map<ValueId, OffsetData>,
                           target: map<UseId, Option<ValueId>>)
  {
    && operands.Keys == parent.Keys
    && offsets.Keys <= operands.Keys
    && (forall i | i in operands ::
          && i in kind && InstructionClassof(kind[i]) && NoDup(operands[i])
          && (forall k | 0 <= k < |operands[i]| :: operands[i][k] in target))
    && (forall i | i in offsets :: |operands[i]| == |offsets[i].bounds| + 1)
  }

  /**
   * Every instruction listed in a block is listed once and points back to
   * that block. (A removed instruction may keep a stale back-pointer:
   * `removeFromParent` does not clear it.)
   */
  ghost predicate BlocksOk(blocks: map<BlockId, seq<ValueId>>, parent: map<ValueId, Option<BlockId>>, nextBlock: nat)
  {
    && (forall b | b in blocks :: b < nextBlock && NoDup(blocks[b]))
    && (forall b, i | b in blocks && i in blocks[b] :: i in parent && parent[i] == Some(b))
  }

  /** All tables are well formed and the def-use graph is consistent. */
  ghost predicate TablesOk(kind: map<ValueId, nat>, valueType: map<ValueId, Ty>, name: map<ValueId, string>,
                           intValue: map<ValueId, nat>, target: map<UseId, Option<ValueId>>,
                           owner: map<UseId, Option<ValueId>>, users: map<ValueId, seq<UseId>>,
                           operands: map<ValueId, seq<UseId>>, parent: map<ValueId, Option<BlockId>>,
                           offsets: map<ValueId, OffsetData>, blocks: map<BlockId, seq<ValueId>>,
                           nextValue: nat, nextUse: nat, nextBlock: nat)
  {
    && ValuesOk(kind, valueType, name, intValue, users, nextValue)
    && UsesOk(target, owner, nextUse)
    && Consistent(target, users)
    && InstrsOk(kind, operands, parent, offsets, target)
    && BlocksOk(blocks, parent, nextBlock)
  }

  /** Every integer constant carries its 32-bit payload and has integer type. */
  lemma ConstIntPayload(kind: map<ValueId, nat>, valueType: map<ValueId, Ty>, name: map<ValueId, string>,
                        intValue: map<ValueId, nat>, users: map<ValueId, seq<UseId>>, n: nat, v: ValueId)
    requires ValuesOk(kind, valueType, name, intValue, users, n) && v in kind && ConstantIntClassof(kind[v])
    ensures v in intValue && intValue[v] < U32Modulus && valueType[v] == Integer
  {
  }

  /** An instruction's operands are existing uses, and an offset has one more operand than bounds. */
  lemma OperandsAreUses(kind: map<ValueId, nat>, operands: map<ValueId, seq<UseId>>,
                        parent: map<ValueId, Option<BlockId>>, offsets: map<ValueId, OffsetData>,
                        target: map<UseId, Option<ValueId>>, i: ValueId)
    requires InstrsOk(kind, operands, parent, offsets, target) && i in operands
    ensures forall k | 0 <= k < |operands[i]| :: operands[i][k] in target
    ensures i in offsets ==> |operands[i]| == |offsets[i].bounds| + 1
  {
  }

  /** Moving a use to the fresh id `n` keeps every use numbered below the counter. */
  lemma UsesOkMove(target: map<UseId, Option<ValueId>>, owner: map<UseId, Option<ValueId>>, n: nat, src: UseId)
    requires UsesOk(target, owner, n) && src in target
    ensures UsesOk(target[src := None][n := target[src]], owner[src := None][n := owner[src]], n + 1)
  {
  }

  /** A fresh value without a payload keeps every value well formed. */
  lemma ValuesOkAdd(kind: map<ValueId, nat>, valueType: map<ValueId, Ty>, name: map<ValueId, string>,
                    intValue: map<ValueId, nat>, users: map<ValueId, seq<UseId>>, n: nat, k: nat, t: Ty)
    requires ValuesOk(kind, valueType, name, intValue, users, n) && !ConstantIntClassof(k)
    ensures ValuesOk(kind[n := k], valueType[n := t], name[n := ""], intValue, users[n := []], n + 1)
  {
  }

  /** Instructions stay well formed when values and uses are added. */
  lemma InstrsOkGrow(kind: map<ValueId, nat>, kind': map<ValueId, nat>, operands: map<ValueId, seq<UseId>>,
                     parent: map<ValueId, Option<BlockId>>, offsets: map<ValueId, OffsetData>,
                     target: map<UseId, Option<ValueId>>, target': map<UseId, Option<ValueId>>)
    requires InstrsOk(kind, operands, parent, offsets, target)
    requires forall v | v in kind :: v in kind' && kind'[v] == kind[v]
    requires target.Keys <= target'.Keys
    ensures InstrsOk(kind', operands, parent, offsets, target')
  {
  }

  /** The value records only depend on which user lists exist. */
  lemma ValuesOkUsers(kind: map<ValueId, nat>, valueType: map<ValueId, Ty>, name: map<ValueId, string>,
                      intValue: map<ValueId, nat>, users: map<ValueId, seq<UseId>>, users': map<ValueId, seq<UseId>>, n: nat)
    requires ValuesOk(kind, valueType, name, intValue, users, n) && users'.Keys == users.Keys
    ensures ValuesOk(kind, valueType, name, intValue, users', n)
  {
  }

  /** Appending a fresh use to an instruction's operands keeps the instructions well formed. */
  lemma InstrsOkAppend(kind: map<ValueId, nat>, operands: map<ValueId, seq<UseId>>,
                       parent: map<ValueId, Option<BlockId>>, offsets: map<ValueId, OffsetData>,
                       target: map<UseId, Option<ValueId>>, i: ValueId, u: UseId, op: Option<ValueId>)
    requires InstrsOk(kind, operands, parent, offsets, target) && i in operands && i !in offsets && u !in target
    ensures InstrsOk(kind, operands[i := operands[i] + [u]], parent, offsets, target[u := op])
  {
    assert u !in operands[i];
    NoDupSnoc(operands[i], u);
  }

  /** Appending an existing use that is not yet among an instruction's operands. */
  lemma InstrsOkAppendUse(kind: map<ValueId, nat>, operands: map<ValueId, seq<UseId>>,
                          parent: map<ValueId, Option<BlockId>>, offsets: map<ValueId, OffsetData>,
                          target: map<UseId, Option<ValueId>>, i: ValueId, u: UseId)
    requires InstrsOk(kind, operands, parent, offsets, target) && i in operands && i !in offsets
    requires u in target && u !in operands[i]
    ensures InstrsOk(kind, operands[i := operands[i] + [u]], parent, offsets, target)
  {
    NoDupSnoc(operands[i], u);
  }

  /** Splicing an unlisted instruction into a block keeps the block lists well formed. */
  lemma LinkBlocksOk(blocks: map<BlockId, seq<ValueId>>, parent: map<ValueId, Option<BlockId>>, n: nat,
                     i: ValueId, b: BlockId, k: nat)
    requires BlocksOk(blocks, parent, n) && i in parent && b in blocks && k <= |blocks[b]|
    requires forall c | c in blocks :: i !in blocks[c]
    ensures BlocksOk(blocks[b := InsertAt(blocks[b], k, i)], parent[i := Some(b)], n)
  {
    var blocks' := blocks[b := InsertAt(blocks[b], k, i)];
    var parent' := parent[i := Some(b)];
    InsertAtNoDup(blocks[b], k, i);
    forall c, j | c in blocks' && j in blocks'[c] ensures j in parent' && parent'[j] == Some(c) {
      if c == b {
        if j != i { assert j in blocks[b]; }
      } else {
        assert j in blocks[c];
      }
    }
  }

  /** Unlinking from a block keeps the block lists well formed; unlinking from its own block leaves it unlisted. */
  lemma UnlinkBlocksOk(blocks: map<BlockId, seq<ValueId>>, parent: map<ValueId, Option<BlockId>>, n: nat,
                       i: ValueId, b: BlockId)
    requires BlocksOk(blocks, parent, n) && b in blocks
    ensures BlocksOk(blocks[b := Remove(blocks[b], i)], parent, n)
    ensures i in parent && parent[i] == Some(b) ==>
      i !in Remove(blocks[b], i) && forall c | c in blocks && c != b :: i !in blocks[c]
  {
    var blocks' := blocks[b := Remove(blocks[b], i)];
    forall c, j | c in blocks' && j in blocks'[c] ensures j in parent && parent[j] == Some(c) {
      assert j in blocks[c];
    }
  }

  /** Instructions stay well formed when back-pointers change but none is added or dropped. */
  lemma InstrsOkReparent(kind: map<ValueId, nat>, operands: map<ValueId, seq<UseId>>,
                         parent: map<ValueId, Option<BlockId>>, parent': map<ValueId, Option<BlockId>>,
                         offsets: map<ValueId, OffsetData>, target: map<UseId, Option<ValueId>>)
    requires InstrsOk(kind, operands, parent, offsets, target) && parent'.Keys == parent.Keys
    ensures InstrsOk(kind, operands, parent', offsets, target)
  {
  }

  /** A fresh `ConstantInt` with a 32-bit payload keeps every value well formed. */
  lemma ValuesOkAddInt(kind: map<ValueId, nat>, valueType: map<ValueId, Ty>, name: map<ValueId, string>,
                       intValue: map<ValueId, nat>, users: map<ValueId, seq<UseId>>, n: nat, val: nat)
    requires ValuesOk(kind, valueType, name, intValue, users, n) && val < U32Modulus
    ensures ValuesOk(kind[n := ConstantIntVal], valueType[n := Integer], name[n := ""], intValue[n := val],
                     users[n := []], n + 1)
  {
  }

  /** A renamed non-constant keeps every value well formed. */
  lemma ValuesOkRename(kind: map<ValueId, nat>, valueType: map<ValueId, Ty>, name: map<ValueId, string>,
                       intValue: map<ValueId, nat>, users: map<ValueId, seq<UseId>>, n: nat, v: ValueId, s: string)
    requires ValuesOk(kind, valueType, name, intValue, users, n) && v in kind && !ConstantClassof(kind[v])
    ensures ValuesOk(kind, valueType, name[v := s], intValue, users, n)
  {
  }

  /** A new instruction with no operands yet and no block. */
  lemma InstrsOkAddInstr(kind: map<ValueId, nat>, operands: map<ValueId, seq<UseId>>,
                         parent: map<ValueId, Option<BlockId>>, offsets: map<ValueId, OffsetData>,
                         target: map<UseId, Option<ValueId>>, i: ValueId)
    requires InstrsOk(kind, operands, parent, offsets, target) && i in kind && InstructionClassof(kind[i])
    requires i !in operands
    ensures InstrsOk(kind, operands[i := []], parent[i := None], offsets, target)
  {
  }

  /** An instruction that had no back-pointer gets a null one. */
  lemma BlocksOkDetach(blocks: map<BlockId, seq<ValueId>>, parent: map<ValueId, Option<BlockId>>, n: nat, i: ValueId)
    requires BlocksOk(blocks, parent, n) && i !in parent
    ensures BlocksOk(blocks, parent[i := None], n)
    ensures forall b | b in blocks :: i !in blocks[b]
  {
  }

  /** Dropping an unlisted instruction's records. */
  lemma InstrsOkErase(kind: map<ValueId, nat>, operands: map<ValueId, seq<UseId>>,
                      parent: map<ValueId, Option<BlockId>>, offsets: map<ValueId, OffsetData>,
                      target: map<UseId, Option<ValueId>>, i: ValueId)
    requires InstrsOk(kind, operands, parent, offsets, target)
    ensures InstrsOk(kind, operands - {i}, parent - {i}, offsets - {i}, target)
  {
  }

  /** Dropping the back-pointer of an instruction no block lists. */
  lemma BlocksOkErase(blocks: map<BlockId, seq<ValueId>>, parent: map<ValueId, Option<BlockId>>, n: nat, i: ValueId)
    requires BlocksOk(blocks, parent, n) && forall b | b in blocks :: i !in blocks[b]
    ensures BlocksOk(blocks, parent - {i}, n)
  {
  }

  /** Recording the bounds of an offset with one operand per bound and a pointer. */
  lemma InstrsOkSetOffset(kind: map<ValueId, nat>, operands: map<ValueId, seq<UseId>>,
                          parent: map<ValueId, Option<BlockId>>, offsets: map<ValueId, OffsetData>,
                          target: map<UseId, Option<ValueId>>, i: ValueId, d: OffsetData)
    requires InstrsOk(kind, operands, parent, offsets, target) && i in operands && |operands[i]| == |d.bounds| + 1
    ensures InstrsOk(kind, operands, parent, offsets[i := d], target)
  {
  }

  /** A new, empty block. */
  lemma BlocksOkAddBlock(blocks: map<BlockId, seq<ValueId>>, parent: map<ValueId, Option<BlockId>>, n: nat)
    requires BlocksOk(blocks, parent, n)
    ensures n !in blocks
    ensures BlocksOk(blocks[n := []], parent, n + 1)
  {
  }
}
