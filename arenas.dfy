/**
 * All IR objects live in one arena (`Arena`), addressed by stable ids. The
 * intrusive lists of the source are sequences of ids: a value's user list
 * (`users`), an instruction's operand vector (`operands`) and a block's
 * instruction list (`blocks`); the back-pointers are maps (`owner`: a use's
 * user, `parent`: an instruction's block, `target`: a use's used value).
 * This module states the arena invariant and proves that every step the IR
 * takes keeps it.
 */
module Arenas {
  import opened Wrappers
  import opened Seqs
  import opened Types
  import opened Kinds
  import opened DefUse
  import opened Tables

  /** Where a new instruction goes: nowhere, before an instruction, or at a block's end. */
  datatype InsertPoint = Detached | Before(pos: ValueId) | AtEnd(block: BlockId)

  /**
   * The fields of every IR object, keyed by object id. For a value: its
   * subclass tag, type, name and, for an integer constant, its payload; for
   * a use: its used value and its user; for an instruction: its operand
   * uses, its block and, for an offset, its element type and bounds; for a
   * block: its instruction list. The counters hand out fresh ids.
   */
  datatype Arena = Arena(
    kind: map<ValueId, nat>,
    valueType: map<ValueId, Ty>,
    name: map<ValueId, string>,
    intValue: map<ValueId, nat>,
    target: map<UseId, Option<ValueId>>,
    owner: map<UseId, Option<ValueId>>,
    users: map<ValueId, seq<UseId>>,
    operands: map<ValueId, seq<UseId>>,
    parent: map<ValueId, Option<BlockId>>,
    offsets: map<ValueId, OffsetData>,
    blocks: map<BlockId, seq<ValueId>>,
    nextValue: nat,
    nextUse: nat,
    nextBlock: nat)

  const EmptyArena: Arena :=
    Arena(map[], map[], map[], map[], map[], map[], map[], map[], map[], map[], map[], 0, 0, 0)

  /** The arena invariant: values, uses, the def-use graph, instructions and blocks agree. */
  ghost predicate Inv(a: Arena)
  {
    TablesOk(a.kind, a.valueType, a.name, a.intValue, a.target, a.owner, a.users, a.operands, a.parent,
             a.offsets, a.blocks, a.nextValue, a.nextUse, a.nextBlock)
  }

  /** An instruction listed in its block: a position to splice before or after. */
  ghost predicate Positioned(a: Arena, p: ValueId)
  {
    p in a.parent && a.parent[p].Some? && a.parent[p].value in a.blocks && p in a.blocks[a.parent[p].value]
  }

  /** An instruction that is in no block's list. */
  ghost predicate Unlisted(a: Arena, i: ValueId)
  {
    forall b | b in a.blocks :: i !in a.blocks[b]
  }

  /** An insertion point the source can act on. */
  ghost predicate CanPlace(a: Arena, pos: InsertPoint)
  {
    match pos
    case Detached => true
    case Before(p) => Positioned(a, p)
    case AtEnd(b) => b in a.blocks
  }

  /** The block layout after placing the fresh instruction `i` at `pos`. */
  ghost predicate PlacedAt(oldBlocks: map<BlockId, seq<ValueId>>, oldParent: map<ValueId, Option<BlockId>>,
                           pos: InsertPoint, i: ValueId,
                           newBlocks: map<BlockId, seq<ValueId>>, newParent: map<ValueId, Option<BlockId>>)
  {
    match pos
    case Detached =>
      newBlocks == oldBlocks && newParent == oldParent[i := None]
    case Before(p) =>
      && p in oldParent && oldParent[p].Some? && oldParent[p].value in oldBlocks && p in oldBlocks[oldParent[p].value]
      && var b := oldParent[p].value;
         && newParent == oldParent[i := Some(b)]
         && newBlocks == oldBlocks[b := InsertAt(oldBlocks[b], IndexOf(oldBlocks[b], p), i)]
    case AtEnd(b) =>
      && b in oldBlocks
      && newParent == oldParent[i := Some(b)]
      && newBlocks == oldBlocks[b := oldBlocks[b] + [i]]
  }

  /**
   * What the `Instruction` constructor leaves behind: a fresh nameless
   * value `i` with the opcode's tag and type `ty`, nobody using it, one fresh
   * operand use per entry of `ops`, owned by `i` and targeting that entry,
   * every older use and instruction untouched, and `i` placed at `pos`.
   */
  ghost predicate Built(a: Arena, a': Arena, i: ValueId, ty: Ty, opcode: nat, ops: seq<Option<ValueId>>, pos: InsertPoint)
    requires IsOpcode(opcode)
  {
    && i == a.nextValue && i !in a.kind
    && a'.kind == a.kind[i := KindOfOpcode(opcode)]
    && a'.valueType == a.valueType[i := ty]
    && a'.name == a.name[i := ""]
    && a'.intValue == a.intValue
    && i in a'.users && a'.users[i] == []
    && a'.operands.Keys == a.operands.Keys + {i}
    && (forall j | j in a.operands :: a'.operands[j] == a.operands[j])
    && |a'.operands[i]| == |ops|
    && (forall k | 0 <= k < |ops| ::
          && a'.operands[i][k] !in a.target && a'.operands[i][k] in a'.target
          && a'.target[a'.operands[i][k]] == ops[k]
          && a'.operands[i][k] in a'.owner && a'.owner[a'.operands[i][k]] == Some(i))
    && (forall u | u in a.target :: u in a'.target && a'.target[u] == a.target[u])
    && (forall u | u in a.owner :: u in a'.owner && a'.owner[u] == a.owner[u])
    && PlacedAt(a.blocks, a.parent, pos, i, a'.blocks, a'.parent)
  }

  // ---------------------------------------------------------------------
  // Each step on the arena keeps the invariant.

  lemma AddValueKeepsInv(a: Arena, k: nat, t: Ty)
    requires Inv(a) && !ConstantIntClassof(k)
    ensures a.nextValue !in a.kind
    ensures Inv(a.(kind := a.kind[a.nextValue := k], valueType := a.valueType[a.nextValue := t],
                   name := a.name[a.nextValue := ""], users := a.users[a.nextValue := []],
                   nextValue := a.nextValue + 1))
  {
    var n := a.nextValue;
    var a' := a.(kind := a.kind[n := k], valueType := a.valueType[n := t], name := a.name[n := ""],
                 users := a.users[n := []], nextValue := n + 1);
    ValuesOkAdd(a.kind, a.valueType, a.name, a.intValue, a.users, n, k, t);
    ConsistentAddValue(a.target, a.users, n);
    InstrsOkGrow(a.kind, a'.kind, a.operands, a.parent, a.offsets, a.target, a.target);
    assert UsesOk(a'.target, a'.owner, a'.nextUse);
    assert BlocksOk(a'.blocks, a'.parent, a'.nextBlock);
  }

  lemma AddIntKeepsInv(a: Arena, val: nat)
    requires Inv(a) && val < U32Modulus
    ensures a.nextValue !in a.kind
    ensures Inv(a.(kind := a.kind[a.nextValue := ConstantIntVal], valueType := a.valueType[a.nextValue := Integer],
                   name := a.name[a.nextValue := ""], users := a.users[a.nextValue := []],
                   intValue := a.intValue[a.nextValue := val], nextValue := a.nextValue + 1))
  {
    var n := a.nextValue;
    var a' := a.(kind := a.kind[n := ConstantIntVal], valueType := a.valueType[n := Integer], name := a.name[n := ""],
                 users := a.users[n := []], intValue := a.intValue[n := val], nextValue := n + 1);
    ValuesOkAddInt(a.kind, a.valueType, a.name, a.intValue, a.users, n, val);
    ConsistentAddValue(a.target, a.users, n);
    InstrsOkGrow(a.kind, a'.kind, a.operands, a.parent, a.offsets, a.target, a.target);
    assert UsesOk(a'.target, a'.owner, a'.nextUse);
    assert BlocksOk(a'.blocks, a'.parent, a'.nextBlock);
  }

  lemma NewUseKeepsInv(a: Arena, user: Option<ValueId>)
    requires Inv(a)
    ensures a.nextUse !in a.target
    ensures Inv(a.(target := a.target[a.nextUse := None], owner := a.owner[a.nextUse := user], nextUse := a.nextUse + 1))
  {
    var a' := a.(target := a.target[a.nextUse := None], owner := a.owner[a.nextUse := user], nextUse := a.nextUse + 1);
    ConsistentAddUse(a.target, a.users, a.nextUse);
    InstrsOkGrow(a.kind, a.kind, a.operands, a.parent, a.offsets, a.target, a'.target);
    assert ValuesOk(a'.kind, a'.valueType, a'.name, a'.intValue, a'.users, a'.nextValue);
    assert UsesOk(a'.target, a'.owner, a'.nextUse);
    assert BlocksOk(a'.blocks, a'.parent, a'.nextBlock);
  }

  lemma SetKeepsInv(a: Arena, u: UseId, v: Option<ValueId>)
    requires Inv(a) && u in a.target && (v.Some? ==> v.value in a.users)
    ensures Inv(a.(target := a.target[u := v], users := SetUsers(a.target, a.users, u, v)))
  {
    var a' := a.(target := a.target[u := v], users := SetUsers(a.target, a.users, u, v));
    SetUseConsistent(a.target, a.users, u, v);
    InstrsOkGrow(a.kind, a.kind, a.operands, a.parent, a.offsets, a.target, a'.target);
    ValuesOkUsers(a.kind, a.valueType, a.name, a.intValue, a.users, a'.users, a.nextValue);
    assert UsesOk(a'.target, a'.owner, a'.nextUse);
  }

  lemma MoveKeepsInv(a: Arena, src: UseId)
    requires Inv(a) && src in a.target && a.target[src].Some?
    ensures a.nextUse !in a.target && a.target[src].value in a.users
    ensures Inv(a.(target := a.target[src := None][a.nextUse := a.target[src]],
                   owner := a.owner[src := None][a.nextUse := a.owner[src]],
                   users := MoveUsers(a.target, a.users, src, a.nextUse),
                   nextUse := a.nextUse + 1))
  {
    var a' := a.(target := a.target[src := None][a.nextUse := a.target[src]],
                 owner := a.owner[src := None][a.nextUse := a.owner[src]],
                 users := MoveUsers(a.target, a.users, src, a.nextUse), nextUse := a.nextUse + 1);
    MoveUseConsistent(a.target, a.users, src, a.nextUse);
    InstrsOkGrow(a.kind, a.kind, a.operands, a.parent, a.offsets, a.target, a'.target);
    ValuesOkUsers(a.kind, a.valueType, a.name, a.intValue, a.users, a'.users, a.nextValue);
    UsesOkMove(a.target, a.owner, a.nextUse, src);
    assert BlocksOk(a'.blocks, a'.parent, a'.nextBlock);
  }

  lemma RenameKeepsInv(a: Arena, v: ValueId, n: string)
    requires Inv(a) && v in a.kind && !ConstantClassof(a.kind[v])
    ensures Inv(a.(name := a.name[v := n]))
  {
    ValuesOkRename(a.kind, a.valueType, a.name, a.intValue, a.users, a.nextValue, v, n);
  }

  lemma AddBlockKeepsInv(a: Arena)
    requires Inv(a)
    ensures a.nextBlock !in a.blocks
    ensures Inv(a.(blocks := a.blocks[a.nextBlock := []], nextBlock := a.nextBlock + 1))
  {
    BlocksOkAddBlock(a.blocks, a.parent, a.nextBlock);
  }

  /** An instruction whose back-pointer is null is in no block's list. */
  lemma DetachedIsUnlisted(a: Arena, i: ValueId)
    requires Inv(a) && (i !in a.parent || a.parent[i] == None)
    ensures Unlisted(a, i)
  {
  }

  lemma AddInstrKeepsInv(a: Arena, i: ValueId)
    requires Inv(a) && i in a.kind && InstructionClassof(a.kind[i]) && i !in a.operands
    ensures Inv(a.(operands := a.operands[i := []], parent := a.parent[i := None]))
  {
    var a' := a.(operands := a.operands[i := []], parent := a.parent[i := None]);
    InstrsOkAddInstr(a.kind, a.operands, a.parent, a.offsets, a.target, i);
    BlocksOkDetach(a.blocks, a.parent, a.nextBlock, i);
    assert ValuesOk(a'.kind, a'.valueType, a'.name, a'.intValue, a'.users, a'.nextValue);
    assert UsesOk(a'.target, a'.owner, a'.nextUse);
    assert Consistent(a'.target, a'.users);
  }

  /**
   * The arena after one step of the `Instruction` constructor: a new use
   * owned by `i` (`Operands.emplace_back(this)`), pointed at `op`
   * (`Operands.back().set(Op)`) and appended to `i`'s operands.
   */
  function WithOperand(a: Arena, i: ValueId, op: Option<ValueId>): Arena
    requires i in a.operands
  {
    var u := a.nextUse;
    var created := a.(target := a.target[u := None], owner := a.owner[u := Some(i)], nextUse := u + 1);
    var pointed := created.(target := created.target[u := op], users := SetUsers(created.target, created.users, u, op));
    pointed.(operands := pointed.operands[i := pointed.operands[i] + [u]])
  }

  /** Adding an operand keeps the invariant. */
  lemma AddOperandKeepsInv(a: Arena, i: ValueId, op: Option<ValueId>)
    requires Inv(a) && i in a.operands && i !in a.offsets && (op.Some? ==> op.value in a.users)
    ensures a.nextUse !in a.target
    ensures Inv(WithOperand(a, i, op))
  {
    var u := a.nextUse;
    NewUseKeepsInv(a, Some(i));
    var created := a.(target := a.target[u := None], owner := a.owner[u := Some(i)], nextUse := u + 1);
    SetKeepsInv(created, u, op);
    var pointed := created.(target := created.target[u := op], users := SetUsers(created.target, created.users, u, op));
    AppendOperandKeepsInv(pointed, i, u);
  }

  /**
   * What one constructor step does to the def-use graph: the new use targets
   * `op`, is owned by `i` and ends `i`'s operands, and it joins the front of
   * `op`'s user list while every other list is unchanged.
   */
  lemma WithOperandEffect(a: Arena, i: ValueId, op: Option<ValueId>)
    requires Consistent(a.target, a.users) && a.nextUse !in a.target && i in a.operands
    requires op.Some? ==> op.value in a.users
    ensures var a' := WithOperand(a, i, op); var u := a.nextUse;
      && a'.target == a.target[u := op] && a'.owner == a.owner[u := Some(i)]
      && a'.operands == a.operands[i := a.operands[i] + [u]]
      && a'.users.Keys == a.users.Keys
      && forall w | w in a.users :: a'.users[w] == if op == Some(w) then [u] + a.users[w] else a.users[w]
  {
    UpdateTwice(a.target, a.nextUse, None, op);
    ConsistentNewOperand(a.target, a.users, a.nextUse, op);
  }

  lemma AppendOperandKeepsInv(a: Arena, i: ValueId, u: UseId)
    requires Inv(a) && i in a.operands && i !in a.offsets && u in a.target && u !in a.operands[i]
    ensures Inv(a.(operands := a.operands[i := a.operands[i] + [u]]))
  {
    InstrsOkAppendUse(a.kind, a.operands, a.parent, a.offsets, a.target, i, u);
  }

  /**
   * Progress of the `Instruction` constructor after its first `k` operands:
   * `i` is the fresh, detached instruction and its first `k` operand uses
   * are fresh, owned by it and target `ops[..k]`.
   */
  ghost predicate Partial(a0: Arena, a: Arena, i: ValueId, opcode: nat, ty: Ty, ops: seq<Option<ValueId>>, k: nat)
    requires IsOpcode(opcode)
  {
    PartialValue(a0, a, i, opcode, ty) && PartialLists(a0, a, i) && PartialUses(a0, a, i, ops, k)
  }

  /** `i` is the fresh, nameless, detached value with the opcode's tag and type `ty`. */
  ghost predicate PartialValue(a0: Arena, a: Arena, i: ValueId, opcode: nat, ty: Ty)
    requires IsOpcode(opcode)
  {
    && i == a0.nextValue && i !in a0.kind
    && a.kind == a0.kind[i := KindOfOpcode(opcode)]
    && a.valueType == a0.valueType[i := ty]
    && a.name == a0.name[i := ""]
    && a.intValue == a0.intValue && a.nextValue == i + 1
    && a.blocks == a0.blocks && a.parent == a0.parent[i := None]
    && a.offsets == a0.offsets && a.nextBlock == a0.nextBlock
  }

  /** Nobody uses `i`, and `i` is the only instruction whose operands have changed. */
  ghost predicate PartialLists(a0: Arena, a: Arena, i: ValueId)
  {
    && a.users.Keys == a0.users.Keys + {i} && i in a.users && a.users[i] == []
    && a.operands.Keys == a0.operands.Keys + {i}
    && (forall j | j in a0.operands :: a.operands[j] == a0.operands[j])
  }

  /** The first `k` operand uses of `i` are fresh, owned by `i` and target `ops[..k]`; older uses are untouched. */
  ghost predicate PartialUses(a0: Arena, a: Arena, i: ValueId, ops: seq<Option<ValueId>>, k: nat)
  {
    && k <= |ops| && i in a.operands && |a.operands[i]| == k
    && (forall m | 0 <= m < k ::
          && a.operands[i][m] !in a0.target && a.operands[i][m] in a.target
          && a.target[a.operands[i][m]] == ops[m]
          && a.operands[i][m] in a.owner && a.owner[a.operands[i][m]] == Some(i))
    && (forall u | u in a0.target :: u in a.target && a.target[u] == a0.target[u])
    && (forall u | u in a0.owner :: u in a.owner && a.owner[u] == a0.owner[u])
  }

  /** The arena after `insertInto` places the detached instruction `i` as `pos` says. */
  ghost function Placed(a: Arena, i: ValueId, pos: InsertPoint): Arena
    requires CanPlace(a, pos)
  {
    match pos
    case Detached => a
    case Before(p) =>
      var b := a.parent[p].value;
      var s := a.blocks[b];
      a.(blocks := a.blocks[b := InsertAt(s, IndexOf(s, p), i)], parent := a.parent[i := Some(b)])
    case AtEnd(b) =>
      var s := a.blocks[b];
      a.(blocks := a.blocks[b := InsertAt(s, |s|, i)], parent := a.parent[i := Some(b)])
  }

  lemma SetOffsetKeepsInv(a: Arena, i: ValueId, d: OffsetData)
    requires Inv(a) && i in a.operands && |a.operands[i]| == |d.bounds| + 1
    ensures Inv(a.(offsets := a.offsets[i := d]))
  {
    InstrsOkSetOffset(a.kind, a.operands, a.parent, a.offsets, a.target, i, d);
  }

  lemma LinkKeepsInv(a: Arena, i: ValueId, b: BlockId, k: nat)
    requires Inv(a) && i in a.parent && Unlisted(a, i) && b in a.blocks && k <= |a.blocks[b]|
    ensures Inv(a.(blocks := a.blocks[b := InsertAt(a.blocks[b], k, i)], parent := a.parent[i := Some(b)]))
  {
    LinkBlocksOk(a.blocks, a.parent, a.nextBlock, i, b, k);
    InstrsOkReparent(a.kind, a.operands, a.parent, a.parent[i := Some(b)], a.offsets, a.target);
  }

  /**
   * Unlinking keeps the invariant, and an instruction unlinked from its own
   * block is then in no list at all.
   */
  lemma UnlinkKeepsInv(a: Arena, i: ValueId, b: BlockId)
    requires Inv(a) && b in a.blocks
    ensures Inv(a.(blocks := a.blocks[b := Remove(a.blocks[b], i)]))
    ensures i in a.parent && a.parent[i] == Some(b) ==> Unlisted(a.(blocks := a.blocks[b := Remove(a.blocks[b], i)]), i)
  {
    UnlinkBlocksOk(a.blocks, a.parent, a.nextBlock, i, b);
    var a' := a.(blocks := a.blocks[b := Remove(a.blocks[b], i)]);
    if i in a.parent && a.parent[i] == Some(b) {
      forall c | c in a'.blocks ensures i !in a'.blocks[c] {
        if c != b { assert a'.blocks[c] == a.blocks[c]; }
      }
    }
  }

  lemma EraseKeepsInv(a: Arena, i: ValueId)
    requires Inv(a) && Unlisted(a, i)
    ensures Inv(a.(operands := a.operands - {i}, parent := a.parent - {i}, offsets := a.offsets - {i}))
  {
    InstrsOkErase(a.kind, a.operands, a.parent, a.offsets, a.target, i);
    BlocksOkErase(a.blocks, a.parent, a.nextBlock, i);
  }

  /**
   * A block is well formed when it is non-empty and its last instruction is
   * a `ret`, `br`, `jump` or `panic`.
   */
  ghost predicate WellFormedBlock(a: Arena, b: BlockId)
    requires Inv(a) && b in a.blocks
  {
    var s := a.blocks[b];
    && s != []
    && var last := s[|s| - 1];
       assert last in s;
       HasOpcode(a.kind[last], Ret) || HasOpcode(a.kind[last], Br) || HasOpcode(a.kind[last], Jump) || HasOpcode(a.kind[last], Panic)
  }

  /**
   * Unlinking an instruction just spliced into a block gives back the block
   * lists it was spliced into (`removeFromParent` undoes `insertBefore`,
   * `insertAfter` and `insertInto` on the lists).
   */
  lemma SpliceThenUnlink(blocks: map<BlockId, seq<ValueId>>, b: BlockId, k: nat, i: ValueId)
    requires b in blocks && k <= |blocks[b]| && i !in blocks[b]
    ensures blocks[b := InsertAt(blocks[b], k, i)][b := Remove(InsertAt(blocks[b], k, i), i)] == blocks
  {
    RemoveInsertAt(blocks[b], k, i);
  }
}
