/**
 * The IR proper: values, their uses, instructions and basic blocks. The
 * class `Context` owns the arena of all IR objects and updates it in place;
 * each method is one operation of the source's classes.
 */
module IR {
  import opened Wrappers
  import opened Seqs
  import opened Types
  import opened Kinds
  import opened DefUse
  import opened OffsetFold
  import opened Tables
  import opened Arenas
  import opened Construction
  import opened Folding

  /** The object graph of one IR context, updated in place. */
  class Context {
    var arena: Arena

    ghost predicate Valid()
      reads this
    {
      Inv(arena)
    }

    constructor ()
      ensures Valid() && arena == EmptyArena
    {
      arena := EmptyArena;
    }

    /**
     * `Value::Value(Ty, scid)`: a new value with the given tag and type, no
     * name and no users.
     */
    method AddValue(k: nat, t: Ty) returns (v: ValueId)
      requires Valid() && !ConstantIntClassof(k)
      modifies this
      ensures Valid()
      ensures v == old(arena.nextValue) && v !in old(arena.kind)
      ensures arena == old(arena).(kind := old(arena.kind)[v := k], valueType := old(arena.valueType)[v := t],
                                   name := old(arena.name)[v := ""], users := old(arena.users)[v := []],
                                   nextValue := v + 1)
    {
      v := arena.nextValue;
      AddValueKeepsInv(arena, k, t);
      arena := arena.(kind := arena.kind[v := k], valueType := arena.valueType[v := t],
                      name := arena.name[v := ""], users := arena.users[v := []], nextValue := v + 1);
    }

    /** `ConstantInt::Create(Val)`: a new integer constant holding `val`. */
    method CreateConstantInt(val: nat) returns (v: ValueId)
      requires Valid() && val < U32Modulus
      modifies this
      ensures Valid()
      ensures v == old(arena.nextValue) && v !in old(arena.kind)
      ensures arena == old(arena).(kind := old(arena.kind)[v := ConstantIntVal],
                                   valueType := old(arena.valueType)[v := Integer],
                                   name := old(arena.name)[v := ""], users := old(arena.users)[v := []],
                                   intValue := old(arena.intValue)[v := val], nextValue := v + 1)
    {
      v := arena.nextValue;
      AddIntKeepsInv(arena, val);
      arena := arena.(kind := arena.kind[v := ConstantIntVal], valueType := arena.valueType[v := Integer],
                      name := arena.name[v := ""], users := arena.users[v := []],
                      intValue := arena.intValue[v := val], nextValue := v + 1);
    }

    /** `ConstantUnit::Create()`: a new unit constant. */
    method CreateConstantUnit() returns (v: ValueId)
      requires Valid()
      modifies this
      ensures Valid()
      ensures v == old(arena.nextValue) && v !in old(arena.kind)
      ensures arena == old(arena).(kind := old(arena.kind)[v := ConstantUnitVal],
                                   valueType := old(arena.valueType)[v := Unit],
                                   name := old(arena.name)[v := ""], users := old(arena.users)[v := []],
                                   nextValue := v + 1)
    {
      v := AddValue(ConstantUnitVal, Unit);
    }

    /** `Use::Use(Value *Parent)`: a new use of the given user that targets nothing. */
    method NewUse(user: Option<ValueId>) returns (u: UseId)
      requires Valid()
      modifies this
      ensures Valid()
      ensures u == old(arena.nextUse) && u !in old(arena.target)
      ensures arena == old(arena).(target := old(arena.target)[u := None], owner := old(arena.owner)[u := user],
                                   nextUse := u + 1)
    {
      u := arena.nextUse;
      NewUseKeepsInv(arena, user);
      arena := arena.(target := arena.target[u := None], owner := arena.owner[u := user], nextUse := u + 1);
    }

    /**
     * `Use::set(V)`: the use leaves the user list of the value it targeted,
     * if any, and, when `V` is non-null, targets `V` and joins the front of
     * `V`'s list; every other list loses nothing but this use.
     */
    method Set(u: UseId, v: Option<ValueId>)
      requires Valid() && u in arena.target && (v.Some? ==> v.value in arena.users)
      modifies this
      ensures Valid()
      ensures arena == old(arena).(target := old(arena.target)[u := v],
                                   users := SetUsers(old(arena.target), old(arena.users), u, v))
    {
      SetKeepsInv(arena, u, v);
      arena := arena.(target := arena.target[u := v], users := SetUsers(arena.target, arena.users, u, v));
    }

    /**
     * `Use::Use(Use &&Other)`: a new use takes over the user, the target and
     * the user-list membership of `src`, which is left targeting nothing and
     * owned by no one; the target keeps its use count. The source
     * dereferences the target, so `src` must target a value.
     */
    method MoveUse(src: UseId) returns (dest: UseId)
      requires Valid() && src in arena.target && arena.target[src].Some?
      modifies this
      ensures Valid()
      ensures dest == old(arena.nextUse) && dest !in old(arena.target)
      ensures arena == old(arena).(target := old(arena.target)[src := None][dest := old(arena.target)[src]],
                                   owner := old(arena.owner)[src := None][dest := old(arena.owner)[src]],
                                   users := MoveUsers(old(arena.target), old(arena.users), src, dest),
                                   nextUse := dest + 1)
      ensures var v := old(arena.target)[src].value;
        |arena.users[v]| == |old(arena.users)[v]| && dest in arena.users[v] && src !in arena.users[v]
    {
      dest := arena.nextUse;
      MoveKeepsInv(arena, src);
      MoveUseConsistent(arena.target, arena.users, src, dest);
      arena := arena.(target := arena.target[src := None][dest := arena.target[src]],
                      owner := arena.owner[src := None][dest := arena.owner[src]],
                      users := MoveUsers(arena.target, arena.users, src, dest),
                      nextUse := dest + 1);
    }

    /**
     * `Value::getNumUses`: walks the user list and counts it, which is the
     * number of uses that target the value.
     */
    method GetNumUses(v: ValueId) returns (n: nat)
      requires Valid() && v in arena.users
      ensures n == |arena.users[v]|
      ensures n == |UsesOf(arena.target, v)|
    {
      var rest := arena.users[v];
      n := 0;
      while rest != []
        invariant n + |rest| == |arena.users[v]|
      {
        n := n + 1;
        rest := rest[1..];
      }
      NumUsesIsTargetCount(arena.target, arena.users, v);
    }

    /**
     * `Value::replaceAllUsesWith(V)`: first snapshots the user list, then
     * retargets every use in the snapshot to `V`. Afterwards exactly the
     * former uses of this value target `V`, this value has no uses left
     * (unless `V` is the value itself), `V` has gained exactly as many uses
     * as this value had, and every other user list is unchanged.
     */
    method ReplaceAllUsesWith(v: ValueId, w: Option<ValueId>)
      requires Valid() && v in arena.users && (w.Some? ==> w.value in arena.users)
      modifies this
      ensures Valid()
      ensures arena.(target := old(arena.target), users := old(arena.users)) == old(arena)
      ensures arena.target.Keys == old(arena.target).Keys && arena.users.Keys == old(arena.users).Keys
      ensures forall u | u in old(arena.target) ::
        arena.target[u] == if u in old(arena.users)[v] then w else old(arena.target)[u]
      ensures w != Some(v) ==> arena.users[v] == []
      ensures w.Some? && w.value != v ==> |arena.users[w.value]| == |old(arena.users)[w.value]| + |old(arena.users)[v]|
      ensures forall x | x in old(arena.users) && x != v && Some(x) != w :: arena.users[x] == old(arena.users)[x]
    {
      var snapshot := arena.users[v];
      ghost var a0 := arena;
      var k := 0;
      while k < |snapshot|
        invariant Valid() && arena.(target := a0.target, users := a0.users) == a0
        invariant Retargeted(a0.target, a0.users, arena.target, arena.users, v, w, snapshot, k)
      {
        RetargetStep(a0.target, a0.users, arena.target, arena.users, v, w, snapshot, k);
        Set(snapshot[k], w);
        k := k + 1;
      }
      assert snapshot[..k] == snapshot;
    }

    /** `Value::setName`: renames a value, except that a constant keeps having no name. */
    method SetName(v: ValueId, n: string)
      requires Valid() && v in arena.kind
      modifies this
      ensures Valid()
      ensures arena == if ConstantClassof(old(arena.kind)[v]) then old(arena) else old(arena).(name := old(arena.name)[v := n])
    {
      if !ConstantClassof(arena.kind[v]) {
        RenameKeepsInv(arena, v, n);
        arena := arena.(name := arena.name[v := n]);
      }
    }

    /** `Value::hasName`: the value has a non-empty name; a constant never has one. */
    function HasName(v: ValueId): (b: bool)
      reads this
      requires Valid() && v in arena.kind
      ensures b <==> arena.name[v] != ""
      ensures ConstantClassof(arena.kind[v]) ==> !b
    {
      arena.name[v] != ""
    }

    /** A new, empty block (a stand-in for `BasicBlock::Create`, whose body is not part of this model). */
    method AddBlock() returns (b: BlockId)
      requires Valid()
      modifies this
      ensures Valid()
      ensures b == old(arena.nextBlock) && b !in old(arena.blocks)
      ensures arena == old(arena).(blocks := old(arena.blocks)[b := []], nextBlock := b + 1)
    {
      b := arena.nextBlock;
      AddBlockKeepsInv(arena);
      arena := arena.(blocks := arena.blocks[b := []], nextBlock := b + 1);
    }

    /**
     * `Instruction::insertInto(BB, IT)`: a detached instruction is spliced
     * into `BB` just before `IT` (at the end when `IT` is `BB->end()`) and
     * its parent becomes `BB`. The source asserts that the instruction is
     * detached and that `IT` is in `BB`.
     */
    method InsertInto(i: ValueId, b: BlockId, pos: Option<ValueId>) returns (it: ValueId)
      requires Valid() && i in arena.parent && arena.parent[i] == None
      requires b in arena.blocks && (pos.Some? ==> pos.value in arena.blocks[b])
      modifies this
      ensures Valid() && it == i
      ensures var s := old(arena.blocks)[b];
        arena == old(arena).(blocks := old(arena.blocks)[b := InsertAt(s, if pos.Some? then IndexOf(s, pos.value) else |s|, i)],
                             parent := old(arena.parent)[i := Some(b)])
    {
      DetachedIsUnlisted(arena, i);
      var s := arena.blocks[b];
      var k := if pos.Some? then IndexOf(s, pos.value) else |s|;
      LinkKeepsInv(arena, i, b, k);
      arena := arena.(blocks := arena.blocks[b := InsertAt(s, k, i)], parent := arena.parent[i := Some(b)]);
      it := i;
    }

    /**
     * `Instruction::insertBefore(InsertPos)`: splices an instruction that is
     * in no list into the block of `pos`, just before `pos`, and sets its
     * parent to that block.
     */
    method InsertBefore(i: ValueId, pos: ValueId)
      requires Valid() && i in arena.parent && Unlisted(arena, i) && Positioned(arena, pos)
      modifies this
      ensures Valid()
      ensures var b := old(arena.parent)[pos].value; var s := old(arena.blocks)[b];
        arena == old(arena).(blocks := old(arena.blocks)[b := InsertAt(s, IndexOf(s, pos), i)],
                             parent := old(arena.parent)[i := Some(b)])
    {
      var b := arena.parent[pos].value;
      var s := arena.blocks[b];
      LinkKeepsInv(arena, i, b, IndexOf(s, pos));
      arena := arena.(blocks := arena.blocks[b := InsertAt(s, IndexOf(s, pos), i)], parent := arena.parent[i := Some(b)]);
    }

    /**
     * `Instruction::insertAfter(InsertPos)`: splices an instruction that is
     * in no list into the block of `pos`, just after `pos`, and sets its
     * parent to that block.
     */
    method InsertAfter(i: ValueId, pos: ValueId)
      requires Valid() && i in arena.parent && Unlisted(arena, i) && Positioned(arena, pos)
      modifies this
      ensures Valid()
      ensures var b := old(arena.parent)[pos].value; var s := old(arena.blocks)[b];
        arena == old(arena).(blocks := old(arena.blocks)[b := InsertAt(s, IndexOf(s, pos) + 1, i)],
                             parent := old(arena.parent)[i := Some(b)])
    {
      var b := arena.parent[pos].value;
      var s := arena.blocks[b];
      var k := IndexOf(s, pos) + 1;
      LinkKeepsInv(arena, i, b, k);
      arena := arena.(blocks := arena.blocks[b := InsertAt(s, k, i)], parent := arena.parent[i := Some(b)]);
    }

    /**
     * `Instruction::removeFromParent`: unlinks the instruction from its
     * block's list, which leaves it in no list. As written, the parent
     * pointer keeps naming the block.
     */
    method RemoveFromParent(i: ValueId)
      requires Valid() && Positioned(arena, i)
      modifies this
      ensures Valid() && Unlisted(arena, i)
      ensures var b := old(arena.parent)[i].value;
        arena == old(arena).(blocks := old(arena.blocks)[b := Remove(old(arena.blocks)[b], i)])
    {
      var b := arena.parent[i].value;
      UnlinkKeepsInv(arena, i, b);
      arena := arena.(blocks := arena.blocks[b := Remove(arena.blocks[b], i)]);
    }

    /**
     * Destroying the operand vector of `i` runs `~Use` on every operand,
     * which takes each operand use off its used value's list; the uses
     * themselves stay as records that target nothing.
     */
    method DropOperands(i: ValueId)
      requires Valid() && i in arena.operands
      modifies this
      ensures Valid()
      ensures arena.(target := old(arena.target), users := old(arena.users)) == old(arena)
      ensures arena.target.Keys == old(arena.target).Keys
      ensures forall u | u in old(arena.target) ::
        arena.target[u] == if u in old(arena.operands)[i] then None else old(arena.target)[u]
    {
      var ops := arena.operands[i];
      ghost var a0 := arena;
      OperandsAreUses(a0.kind, a0.operands, a0.parent, a0.offsets, a0.target, i);
      var j := 0;
      while j < |ops|
        invariant Valid() && arena.(target := a0.target, users := a0.users) == a0
        invariant Dropped(a0.target, arena.target, ops, j)
      {
        DropStep(a0.target, arena.target, ops, j);
        Set(ops[j], None);
        j := j + 1;
      }
      assert ops[..j] == ops;
    }

    /**
     * `Instruction::eraseFromParent`: unlinks the instruction and destroys
     * it, returning the position after it (`None` for the block's end). The
     * erased value's id stays allocated: uses of it elsewhere are not
     * touched.
     */
    method EraseFromParent(i: ValueId) returns (next: Option<ValueId>)
      requires Valid() && Positioned(arena, i)
      modifies this
      ensures Valid() && Unlisted(arena, i) && i !in arena.operands
      ensures var b := old(arena.parent)[i].value; var s := old(arena.blocks)[b]; var k := IndexOf(s, i);
        && arena.blocks == old(arena.blocks)[b := Remove(s, i)]
        && next == (if k + 1 < |s| then Some(s[k + 1]) else None)
      ensures arena.operands == old(arena.operands) - {i} && arena.parent == old(arena.parent) - {i}
      ensures arena.offsets == old(arena.offsets) - {i}
      ensures arena.(target := old(arena.target), users := old(arena.users), blocks := old(arena.blocks),
                     operands := old(arena.operands), parent := old(arena.parent), offsets := old(arena.offsets)) == old(arena)
      ensures arena.target.Keys == old(arena.target).Keys
      ensures forall u | u in old(arena.target) ::
        arena.target[u] == if u in old(arena.operands)[i] then None else old(arena.target)[u]
    {
      var b := arena.parent[i].value;
      var s := arena.blocks[b];
      var k := IndexOf(s, i);
      next := if k + 1 < |s| then Some(s[k + 1]) else None;
      RemoveFromParent(i);
      ghost var a1 := arena;
      DropOperands(i);
      assert Unlisted(arena, i) by { assert arena.blocks == a1.blocks; }
      EraseKeepsInv(arena, i);
      arena := arena.(operands := arena.operands - {i}, parent := arena.parent - {i}, offsets := arena.offsets - {i});
    }

    /** One step of the `Instruction` constructor, as `WithOperand` describes it. */
    method AddOperand(i: ValueId, op: Option<ValueId>) returns (u: UseId)
      requires Valid() && i in arena.operands && i !in arena.offsets && (op.Some? ==> op.value in arena.users)
      modifies this
      ensures Valid()
      ensures u == old(arena.nextUse) && u !in old(arena.target)
      ensures arena == WithOperand(old(arena), i, op)
      ensures arena.target == old(arena.target)[u := op] && arena.owner == old(arena.owner)[u := Some(i)]
      ensures arena.operands == old(arena.operands)[i := old(arena.operands)[i] + [u]]
      ensures forall w | w in old(arena.users) ::
        arena.users[w] == if op == Some(w) then [u] + old(arena.users)[w] else old(arena.users)[w]
    {
      u := arena.nextUse;
      AddOperandKeepsInv(arena, i, op);
      WithOperandEffect(arena, i, op);
      arena := WithOperand(arena, i, op);
    }

    /**
     * The `Instruction` constructor: a new value with tag
     * `InstructionVal + Opcode` and type `ty`, one operand use per entry of
     * `ops` (a null entry, modelled only as a use targeting nothing, is
     * dereferenced by the source once a later operand makes the operand
     * vector move its uses), then placed
     * before `pos` (whose block the source asserts is non-null) or at the
     * end of a block, or left detached.
     */
    method NewInstruction(ty: Ty, opcode: nat, ops: seq<Option<ValueId>>, pos: InsertPoint) returns (i: ValueId)
      requires Valid() && IsOpcode(opcode)
      requires forall k | 0 <= k < |ops| && ops[k].Some? :: ops[k].value in arena.users
      requires CanPlace(arena, pos)
      modifies this
      ensures Valid()
      ensures Built(old(arena), arena, i, ty, opcode, ops, pos)
      ensures arena.offsets == old(arena.offsets) && arena.nextBlock == old(arena.nextBlock)
    {
      ghost var a0 := arena;
      i := AddValue(KindOfOpcode(opcode), ty);
      assert i !in a0.users && i !in a0.operands && i !in a0.parent && a0.offsets.Keys <= a0.operands.Keys;
      PartialStart(a0, i, opcode, ty, ops);
      AddInstrKeepsInv(arena, i);
      arena := arena.(operands := arena.operands[i := []], parent := arena.parent[i := None]);
      var k := 0;
      while k < |ops|
        invariant Valid() && Partial(a0, arena, i, opcode, ty, ops, k)
      {
        PartialStep(a0, arena, i, opcode, ty, ops, k);
        var u := AddOperand(i, ops[k]);
        k := k + 1;
      }
      ghost var a1 := arena;
      PartialPlaced(a0, a1, i, opcode, ty, ops, pos);
      match pos {
        case Detached =>
        case Before(p) =>
          var it := InsertInto(i, arena.parent[p].value, Some(p));
        case AtEnd(b) =>
          var it := InsertInto(i, b, None);
      }
      assert arena == Placed(a1, i, pos);
    }

    /**
     * `BinaryInst::Create(Op, LHS, RHS, Ty, ...)`: a binary instruction over
     * two existing operands, which the source asserts have the same type
     * (types are interned, so pointer equality is structural equality).
     */
    method CreateBinary(op: nat, lhs: ValueId, rhs: ValueId, ty: Ty, pos: InsertPoint) returns (i: ValueId)
      requires Valid() && IsBinaryOp(op) && lhs in arena.kind && rhs in arena.kind
      requires arena.valueType[lhs] == arena.valueType[rhs]
      requires CanPlace(arena, pos)
      modifies this
      ensures Valid()
      ensures Built(old(arena), arena, i, ty, op, [Some(lhs), Some(rhs)], pos)
      ensures BinaryClassof(arena.kind[i]) && GetOpcode(arena.kind[i]) == op
    {
      i := NewInstruction(ty, op, [Some(lhs), Some(rhs)], pos);
    }

    /**
     * `AllocaInst::Create(PointeeTy, NumElements, ...)`: an operand-less
     * instruction of type pointer-to-`elem`; the source asserts `elem` is not
     * the unit type. As written, `NumElements` is not stored.
     */
    method CreateAlloca(elem: Ty, numElements: nat, pos: InsertPoint) returns (i: ValueId)
      requires Valid() && !IsUnitTy(elem) && CanPlace(arena, pos)
      modifies this
      ensures Valid()
      ensures Built(old(arena), arena, i, Pointer(elem), Alloca, [], pos)
      ensures HasOpcode(arena.kind[i], Alloca) && GetElementType(arena.valueType[i]) == elem
    {
      i := NewInstruction(Pointer(elem), Alloca, [], pos);
    }

    /** `StoreInst::Create(Val, Ptr, ...)`: a unit-typed instruction whose operands are the value and the pointer. */
    method CreateStore(val: Option<ValueId>, ptr: Option<ValueId>, pos: InsertPoint) returns (i: ValueId)
      requires Valid() && (val.Some? ==> val.value in arena.users) && (ptr.Some? ==> ptr.value in arena.users)
      requires CanPlace(arena, pos)
      modifies this
      ensures Valid()
      ensures Built(old(arena), arena, i, Unit, Store, [val, ptr], pos)
      ensures HasOpcode(arena.kind[i], Store)
      ensures arena.target[arena.operands[i][0]] == val && arena.target[arena.operands[i][1]] == ptr
    {
      i := NewInstruction(Unit, Store, [val, ptr], pos);
    }

    /**
     * `OffsetInst::Create(PointeeTy, Ptr, Indices, Bounds, ...)`: an
     * instruction of type pointer-to-`elem` whose operands are the pointer
     * and then the indices, remembering `elem` and the bounds. It requires
     * the intended `AssertOK` (the as-written check, which compares the
     * instruction's own use count, fails on every new offset; the last
     * postcondition records that).
     */
    method CreateOffset(elem: Ty, ptr: ValueId, indices: seq<Option<ValueId>>, bounds: seq<Option<nat>>,
                        pos: InsertPoint) returns (i: ValueId)
      requires Valid() && ptr in arena.kind
      requires forall k | 0 <= k < |indices| && indices[k].Some? :: indices[k].value in arena.users
      requires OffsetAssertOK(arena.valueType[ptr], elem, 1 + |indices|, bounds)
      requires CanPlace(arena, pos)
      modifies this
      ensures Valid()
      ensures Built(old(arena), arena, i, Pointer(elem), Offset, [Some(ptr)] + indices, pos)
      ensures arena.offsets == old(arena.offsets)[i := OffsetData(elem, bounds)]
      ensures HasOpcode(arena.kind[i], Offset)
      ensures !OffsetAssertOKAsWritten(old(arena.valueType)[ptr], elem, |arena.users[i]|, bounds)
    {
      i := NewInstruction(Pointer(elem), Offset, [Some(ptr)] + indices, pos);
      SetOffsetKeepsInv(arena, i, OffsetData(elem, bounds));
      arena := arena.(offsets := arena.offsets[i := OffsetData(elem, bounds)]);
    }

    /**
     * `BranchInst::Create(IfTrue, IfFalse, Cond, ...)`: a unit-typed
     * instruction whose one operand is the condition, which the source
     * asserts is of integer type. As written, the two targets are not stored.
     */
    method CreateBranch(ifTrue: Option<BlockId>, ifFalse: Option<BlockId>, cond: ValueId, pos: InsertPoint)
      returns (i: ValueId)
      requires Valid() && cond in arena.kind && IsIntegerTy(arena.valueType[cond]) && CanPlace(arena, pos)
      modifies this
      ensures Valid()
      ensures Built(old(arena), arena, i, Unit, Br, [Some(cond)], pos)
      ensures HasOpcode(arena.kind[i], Br) && IsTerminator(GetOpcode(arena.kind[i]))
    {
      i := NewInstruction(Unit, Br, [Some(cond)], pos);
    }

    /**
     * `OffsetInst::accumulateConstantOffset(Offset)` as its documentation
     * describes it: when every index operand (operand 0, the pointer, is
     * not an index) is an integer constant, adds the row-major offset of the
     * indices to `offset` in `std::size_t` arithmetic and returns true;
     * otherwise returns false and leaves `offset` as it was.
     */
    method AccumulateConstantOffset(i: ValueId, offset: nat) returns (ok: bool, result: nat)
      requires Valid() && i in arena.offsets && offset < SizeModulus
      requires |arena.offsets[i].bounds| >= 1 && InnerBoundsPresent(arena.offsets[i].bounds)
      ensures var ops := arena.operands[i]; var bounds := arena.offsets[i].bounds;
        && |ops| == |bounds| + 1
        && (ok <==> AllConstant(arena, ops[1..]))
        && (ok ==> result == (offset + RowMajorOffset(ConstantsOf(arena, ops[1..]), bounds)) % SizeModulus)
        && (!ok ==> result == offset)
      ensures result < SizeModulus
    {
      var ops := arena.operands[i];
      var bounds := arena.offsets[i].bounds;
      OperandsAreUses(arena.kind, arena.operands, arena.parent, arena.offsets, arena.target, i);
      forall k | 0 <= k < |ops[1..]| ensures ops[1..][k] in arena.target {
        assert ops[1..][k] == ops[k + 1];
      }
      var indices;
      ok, indices := ScanConstants(arena, ops[1..]);
      if !ok {
        return false, offset;
      }
      var total := SumOffsets(indices, RowMajorStrides(bounds));
      result := (offset + total) % SizeModulus;
    }

    /**
     * `Instruction::getOperand(i)` (and the named accessors built on it:
     * `getValue`, `getPointer`, `getPointerOperand`, `getCondition`,
     * `getReturnValue`): the value the `k`-th operand use targets. That use
     * is on the target's user list.
     */
    function GetOperand(i: ValueId, k: nat): (r: Option<ValueId>)
      reads this
      requires Valid() && i in arena.operands && k < |arena.operands[i]|
      ensures arena.operands[i][k] in arena.target && r == arena.target[arena.operands[i][k]]
      ensures r.Some? ==> r.value in arena.users && arena.operands[i][k] in arena.users[r.value]
    {
      assert arena.operands[i][k] in arena.operands[i];
      arena.target[arena.operands[i][k]]
    }

    /**
     * `BasicBlock::getTerminator`: the last instruction when the block is
     * well formed (non-empty and ending in `ret`, `br`, `jump` or `panic`),
     * otherwise null.
     */
    function GetTerminator(b: BlockId): (r: Option<ValueId>)
      reads this
      requires Valid() && b in arena.blocks
      ensures r.Some? <==> WellFormedBlock(arena, b)
      ensures r.Some? ==> r.value == arena.blocks[b][|arena.blocks[b]| - 1]
    {
      var s := arena.blocks[b];
      if s == [] then None
      else
        assert s[|s| - 1] in s;
        var last := s[|s| - 1];
        TerminatorOpcodes(GetOpcode(arena.kind[last]));
        if IsTerminator(GetOpcode(arena.kind[last])) then Some(last) else None
    }

    /** `BasicBlock::size`: the number of instructions listed in the block, none twice. */
    function BlockSize(b: BlockId): (n: nat)
      reads this
      requires Valid() && b in arena.blocks
      ensures n == |Elems(arena.blocks[b])|
    {
      NoDupCard(arena.blocks[b]);
      |arena.blocks[b]|
    }

    /** `BasicBlock::empty`: no instruction is listed; an empty block has no terminator. */
    predicate BlockEmpty(b: BlockId)
      reads this
      requires Valid() && b in arena.blocks
      ensures BlockEmpty(b) <==> BlockSize(b) == 0
      ensures BlockEmpty(b) ==> GetTerminator(b) == None
    {
      arena.blocks[b] == []
    }
  }
}
