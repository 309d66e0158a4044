/**
 * Value kinds and instruction opcodes: the small integers a value carries as
 * its subclass tag, and the range checks that stand in for dynamic type tests.
 *
 * The numbering comes from a definitions file that is not part of this
 * model. The constants below are placeholders chosen to respect the only
 * facts the code relies on: constants form one contiguous tag range,
 * instruction tags start at `InstructionVal` and lie above every other tag,
 * and each opcode group is a contiguous range of opcodes.
 */
module Kinds {

  // Value kinds (`Value::ValueKind`).
  const ArgumentVal: nat := 0
  const GlobalVariableVal: nat := 1
  const ConstantIntVal: nat := 2
  const ConstantUnitVal: nat := 3
  const ConstantFirstVal: nat := ConstantIntVal
  const ConstantLastVal: nat := ConstantUnitVal
  const InstructionVal: nat := 4

  // Opcode groups (`Instruction::BinaryOps`, `MemoryOps`, `TerminatorOps`, `OtherOps`).
  const BinaryOpsBegin: nat := 0
  const BinaryOpsEnd: nat := 12
  const Alloca: nat := 13
  const Load: nat := 14
  const Offset: nat := 15
  const Store: nat := 16
  const MemoryOpsBegin: nat := Alloca
  const MemoryOpsEnd: nat := Store
  const Ret: nat := 17
  const Br: nat := 18
  const Jump: nat := 19
  const Panic: nat := 20
  const TerminatorOpsBegin: nat := Ret
  const TerminatorOpsEnd: nat := Panic
  const Call: nat := 21
  const OtherInstBegin: nat := Call
  const OtherInstEnd: nat := Call

  /** An opcode that one of the four groups defines. */
  predicate IsOpcode(op: nat) { op <= OtherInstEnd }

  /** The tag of an instruction built with opcode `op`: `InstructionVal + Opcode`. */
  function KindOfOpcode(op: nat): (k: nat)
    requires IsOpcode(op)
    ensures k >= InstructionVal
    ensures k < 256  // the tag is stored in an unsigned char
  {
    InstructionVal + op
  }

  /** `Instruction::classof`: a value is an instruction iff its tag is at least `InstructionVal`. */
  predicate InstructionClassof(kind: nat) { kind >= InstructionVal }

  /** `Instruction::getOpcode`: the tag minus `InstructionVal`. */
  function GetOpcode(kind: nat): (op: nat)
    requires InstructionClassof(kind)
    ensures InstructionVal + op == kind
  {
    kind - InstructionVal
  }

  /** `Instruction::isBinaryOp`: the inclusive range of binary opcodes. */
  predicate IsBinaryOp(op: nat) { BinaryOpsBegin <= op <= BinaryOpsEnd }

  /** `Instruction::isTerminator`: the inclusive range of terminator opcodes. */
  predicate IsTerminator(op: nat) { TerminatorOpsBegin <= op <= TerminatorOpsEnd }

  /** `Constant::classof`: the inclusive range of constant tags. */
  predicate ConstantClassof(kind: nat) { ConstantFirstVal <= kind <= ConstantLastVal }

  /** `ConstantInt::classof` and `ConstantUnit::classof`: one exact tag each. */
  predicate ConstantIntClassof(kind: nat) { kind == ConstantIntVal }
  predicate ConstantUnitClassof(kind: nat) { kind == ConstantUnitVal }

  /** `Argument::classof`. */
  predicate ArgumentClassof(kind: nat) { kind == ArgumentVal }

  /**
   * The `classof` of a concrete instruction class (`AllocaInst`, `StoreInst`,
   * `LoadInst`, `OffsetInst`, `CallInst`, `RetInst`, `JumpInst`, `BranchInst`,
   * `PanicInst`): the value is an instruction and has that one opcode.
   */
  predicate HasOpcode(kind: nat, op: nat) { InstructionClassof(kind) && GetOpcode(kind) == op }

  /** `BinaryInst::classof`: an instruction whose opcode is a binary one. */
  predicate BinaryClassof(kind: nat) { InstructionClassof(kind) && IsBinaryOp(GetOpcode(kind)) }

  /**
   * Tag and opcode determine each other: the opcode read back from an
   * instruction's tag is the one it was built with, and the tag is recovered
   * from the opcode.
   */
  lemma OpcodeRoundTrip(op: nat, kind: nat)
    ensures IsOpcode(op) ==> InstructionClassof(KindOfOpcode(op)) && GetOpcode(KindOfOpcode(op)) == op
    ensures InstructionClassof(kind) && IsOpcode(GetOpcode(kind)) ==> KindOfOpcode(GetOpcode(kind)) == kind
  {
  }

  /** Exactly Ret, Br, Jump and Panic are terminators; no binary opcode is one. */
  lemma TerminatorOpcodes(op: nat)
    ensures IsTerminator(op) <==> op == Ret || op == Br || op == Jump || op == Panic
    ensures IsBinaryOp(op) ==> !IsTerminator(op)
    ensures op == Alloca || op == Load || op == Offset || op == Store || op == Call ==> !IsBinaryOp(op) && !IsTerminator(op)
  {
  }

  /**
   * The tag ranges are disjoint: a constant is no instruction and no
   * argument, and each concrete constant class lies inside the constant range.
   */
  lemma KindRanges(kind: nat)
    ensures ConstantClassof(kind) ==> !InstructionClassof(kind) && !ArgumentClassof(kind)
    ensures ConstantIntClassof(kind) || ConstantUnitClassof(kind) ==> ConstantClassof(kind)
    ensures ConstantClassof(kind) ==> ConstantIntClassof(kind) || ConstantUnitClassof(kind)
    ensures ArgumentClassof(kind) ==> !InstructionClassof(kind)
  {
  }
}
