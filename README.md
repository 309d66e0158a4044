# Accipit IR and semantic analysis, modelled in Dafny

This project models two parts of a small compiler.

- **The Accipit IR library.** It covers four things:
  - the closed set of IR types, the uniquing buffer behind derived types, and the value tags and opcode ranges that stand in for dynamic type tests;
  - the def-use graph: every use records the value it targets, and every value lists the uses that target it;
  - instructions with their operand uses, and basic blocks as ordered instruction lists;
  - constant folding of `offset` addresses.
- **The semantic-analysis front end.** It covers the scoped symbol table `Table<T>`, the expression type checker `type_check`, and the statement walker `sa`.

The IR's object graph lives in one arena, a datatype kept in the field of class `IR.Context`, keyed by ids. Every IR operation that changes the graph is a method of that class. It is proved to keep:

- the arena invariant, where the def-use graph's two views agree and each listed instruction names its block;
- an exact description of the new state.

The pure parts are functions and lemmas:

- type accessors, tag ranges and user-list transitions (modules `Types`, `Kinds`, `DefUse`);
- offset strides (`OffsetFold`);
- functions, global variables and modules, as values (`Containers`).

The symbol table is a class `SymTable.Table` whose methods are specified by functions on its contents (`TableState`).

`sa` receives its tables by value. The methods of `Sema` therefore copy the tables they are given into `Table` objects of their own. They are proved against `SaSpec`, a function that says what `sa` answers:

- 0 for **accepted**;
- -1 for **rejected**.

Two defects in `sa` are modelled twice, once as written and once corrected (see "## Findings"):

- the non-terminating block case;
- the stray `;` after the `if` and `while` condition tests.

The corrected behaviour is the one `SaSpec` describes.

Two arithmetic details:

- `std::size_t` arithmetic is taken modulo 2^64. Reducing once at the end gives the same result as wrapping after every step.
- `std::uint32_t` constants are below 2^32.

## Model

| member | source | states |
|---|---|---|
| Types.ExactlyOneTag | include/ir/type.h:51-81 | each of `isIntegerTy`, `isUnitTy`, `isPointerTy`, `isFunctionTy` holds exactly for its own variant, and exactly one of them holds for any type |
| Types.ClassofMatchesTag | include/ir/type.h:105-134 | `PointerType::classof` holds exactly for pointer-tagged types and `FunctionType::classof` exactly for function-tagged ones; no type passes both |
| Types.PrimitiveSingletons | include/ir/type.h:62-86 | the integer and unit types are single values carrying their own tags: any type tagged integer (unit) is that type |
| Types.GetElementType | include/ir/type.h:102 | the element type read back from a pointer type is the one it was built over |
| Types.GetNumParams | include/ir/type.h:123 | the parameter count is the length of the parameter list |
| Types.GetParamType | include/ir/type.h:122 | a parameter type exists exactly for indices below the count (`.at` otherwise throws), and is the parameter at that index |
| Types.GetReturnType | include/ir/type.h:124 | the function type is built from the returned result type |
| Types.PointerRoundTrip | include/ir/type.h:102-107 | a pointer type built over `T` is a pointer (tag and `classof`) whose element type is `T` |
| Types.FunctionAccessors | include/ir/type.h:121-124 | a function type answers its parameter count, each parameter in order and its return type as given, and rejects every index past the end |
| Types.Buffer.constructor | include/ir/type.h:27-28 | a new buffer maps no key and has handed out no slot |
| Types.Buffer.InsertAs | include/ir/type.h:31-41 | reports an insertion exactly for an absent key; a new key gets a slot no other key has and the map grows by that one entry; a present key keeps its slot and the map is unchanged |
| Types.InsertAsShares | include/ir/type.h:31-41 | two requests for the same key get the same slot, and a key already present allocates nothing, so a derived type is shared |
| Types.InsertAsSeparates | include/ir/type.h:31-41 | requests for different keys get different slots |
| Kinds.KindOfOpcode | src/ir/ir.cpp:101 | an instruction's tag is `InstructionVal + Opcode`, at least `InstructionVal` and small enough for the one-byte tag |
| Kinds.GetOpcode | accsys/include/ir/ir.h:227 | the opcode of an instruction's tag is the tag minus `InstructionVal` |
| Kinds.OpcodeRoundTrip | accsys/include/ir/ir.h:227-253 | a value built with an opcode is an instruction, and its opcode reads back unchanged; the tag is recovered from the opcode |
| Kinds.TerminatorOpcodes | accsys/include/ir/ir.h:243-249 | the terminator range holds exactly `ret`, `br`, `jump` and `panic`; no binary or memory opcode, and not `call`, is a terminator |
| Kinds.KindRanges | accsys/include/ir/ir.h:147-176 | the constant tag range is exactly `ConstantInt` and `ConstantUnit`, and it overlaps neither the instructions nor the arguments |
| DefUse.SetUsersShape | src/ir/ir.cpp:21-44 | after `Use::set` each user list has lost the use, and the new target's list has it in front |
| DefUse.SetUseConsistent | src/ir/ir.cpp:38-44 | `Use::set` keeps the two views of the graph agreeing; the old target loses exactly one use and the new one gains exactly one |
| DefUse.SetUsersAgree | src/ir/ir.cpp:38-44 | the user lists `Use::set` leaves agree with the updated targets again |
| DefUse.MoveUseConsistent | src/ir/ir.cpp:11-19 | a move leaves the source use targeting nothing and passes its single list membership to the new use; the target's use count and every other list are unchanged |
| DefUse.NumUsesIsTargetCount | src/ir/ir.cpp:50-56 | the length of a value's user list is the number of uses that target it |
| DefUse.ConsistentAddValue | src/ir/ir.cpp:47-48 | a new value with no users keeps the graph consistent |
| DefUse.ConsistentAddUse | src/ir/ir.cpp:9 | a new use that targets nothing keeps the graph consistent |
| DefUse.ConsistentNewOperand | src/ir/ir.cpp:117-120 | a new operand use set to its operand is consistent and appears at the front of that operand's user list only |
| DefUse.RetargetStep | src/ir/ir.cpp:64-65 | one retarget step of `replaceAllUsesWith` keeps its progress description: the first k snapshot uses target the new value, and the rest are still on the old list |
| DefUse.DropStep | accsys/include/ir/ir.h:63-66 | destroying one operand use leaves it targeting nothing and all other uses as they were |
| OffsetFold.CodeStrides | src/ir/ir.cpp:294-299 | the strides the code uses are the bounds after the first one, then 1 |
| OffsetFold.RowMajorStrides | accsys/include/ir/ir.h:433-437 | the innermost stride is 1, and each stride is the next bound times the next stride |
| OffsetFold.SumOffsets | src/ir/ir.cpp:309-312 | the summation loop computes the sum of each index times its stride |
| OffsetFold.RowMajorExample | accsys/include/ir/ir.h:436-437 | with `int g[3][4][5]` and bounds [3, 4, 5], indices [1, 2, 3] fold to 33 |
| OffsetFold.CodeOffsetExample | src/ir/ir.cpp:293-316 | the code's strides fold the same indices to 17, not 33 |
| OffsetFold.RowMajorInRegion | accsys/include/ir/ir.h:433-437 | for in-bounds inner indices, the row-major offset stays below (outer index + 1) times the outer stride |
| OffsetFold.FreshOffsetFailsAssertOK | src/ir/ir.cpp:244-249 | the as-written check rejects every instruction that has no uses yet, which includes every newly built offset |
| OffsetFold.OffsetAssertOKAccepts | src/ir/ir.cpp:244-249 | the intended check accepts a well-typed offset exactly when it has one index per bound |
| Folding.ConstantsOf | src/ir/ir.cpp:301-307 | the collected payloads are, in order, the values of the constants the uses target |
| Folding.PointerOperandStopsFold | src/ir/ir.cpp:301-307 | a scan that includes operand 0, the pointer, never finds all operands constant |
| Folding.ScanConstants | src/ir/ir.cpp:301-307 | the scan succeeds exactly when every use targets an integer constant, and then returns their payloads in order |
| Arenas.SpliceThenUnlink | src/ir/ir.cpp:140-162 | unlinking an instruction just spliced into a block gives back the block lists as they were |
| IR.Context.AddValue | src/ir/ir.cpp:47-48 | a fresh value with the given tag and type, no name and no users; nothing else changes |
| IR.Context.CreateConstantInt | src/ir/ir.cpp:83-88 | a fresh nameless integer-typed constant holding the given 32-bit value |
| IR.Context.CreateConstantUnit | src/ir/ir.cpp:90-95 | a fresh nameless unit-typed constant |
| IR.Context.NewUse | src/ir/ir.cpp:9 | a fresh use of the given user that targets nothing |
| IR.Context.Set | src/ir/ir.cpp:38-44 | the use targets the new value (or nothing) and the user lists change as `Use::set` prescribes; the invariant is kept |
| IR.Context.MoveUse | src/ir/ir.cpp:11-19 | the new use takes over user, target and list membership; the old one is left empty; the target's use count is unchanged |
| IR.Context.GetNumUses | src/ir/ir.cpp:50-56 | the counting loop returns the length of the user list, which is the number of uses targeting the value |
| IR.Context.ReplaceAllUsesWith | src/ir/ir.cpp:58-66 | exactly the former uses of the value now target the replacement, and other uses keep their targets; the value has no uses left (unless replaced by itself); the replacement gains exactly as many uses as the value had; other user lists are unchanged |
| IR.Context.SetName | src/ir/ir.cpp:68-73 | renames a non-constant value and leaves a constant unchanged |
| IR.Context.HasName | src/ir/ir.cpp:75-77 | holds exactly when the name is non-empty; a constant never has a name |
| IR.Context.AddBlock | accsys/include/ir/ir.h:590-592 | a fresh, empty block; nothing else changes |
| IR.Context.InsertInto | src/ir/ir.cpp:152-158 | a detached instruction is spliced in just before the given position (at the end when there is none), and its parent becomes the block; other blocks and orders are unchanged |
| IR.Context.InsertBefore | src/ir/ir.cpp:131-143 | an unlisted instruction is spliced in just before the position in that position's block, and takes that block as parent |
| IR.Context.InsertAfter | src/ir/ir.cpp:145-150 | an unlisted instruction is spliced in just after the position in that position's block, and takes that block as parent |
| IR.Context.RemoveFromParent | src/ir/ir.cpp:160-162 | the instruction leaves its block's list and is then in no list; nothing else changes, not even its parent |
| IR.Context.DropOperands | accsys/include/ir/ir.h:63-66 | destroying the operand vector leaves every operand use targeting nothing, takes it off its value's list, and changes nothing else |
| IR.Context.EraseFromParent | src/ir/ir.cpp:164-166 | the instruction is unlinked, its operand uses are detached, and its operands and parent are dropped; it returns the position after it (or the end) |
| IR.Context.AddOperand | src/ir/ir.cpp:117-120 | one constructor step: a fresh use owned by the instruction, targeting the operand, appended to the operand vector and put in front of the operand's user list |
| IR.Context.NewInstruction | src/ir/ir.cpp:98-124 | a fresh value tagged with the opcode, with one new use per operand, in order, each owned by it and targeting that operand; placed before the position, at the block's end, or left detached; older uses are untouched |
| IR.Context.CreateBinary | src/ir/ir.cpp:182-194 | requires operands of equal type; builds a binary instruction over the two operands |
| IR.Context.CreateAlloca | src/ir/ir.cpp:196-219 | requires a non-unit element type; builds an operand-less instruction of type pointer-to-element |
| IR.Context.CreateStore | src/ir/ir.cpp:221-241 | a unit-typed store whose operand 0 is the value and operand 1 the pointer |
| IR.Context.CreateOffset | src/ir/ir.cpp:244-290 | requires the intended check; builds a pointer-typed offset whose operands are the pointer then the indices, and records element type and bounds; the as-written check fails on it |
| IR.Context.CreateBranch | src/ir/ir.cpp:318-348 | requires an integer condition; builds a unit-typed terminator whose one operand is the condition |
| IR.Context.AccumulateConstantOffset | src/ir/ir.cpp:293-316 | succeeds exactly when every index operand is an integer constant; then adds the row-major offset of the indices modulo 2^64, and otherwise leaves the accumulator as it was |
| IR.Context.GetOperand | accsys/include/ir/ir.h:232 | the k-th operand is the target of the k-th operand use, and that use is on the target's user list (so operand 0 is what `getValue`, `getPointerOperand`, `getCondition` and `getReturnValue` read, and operand 1 is what `getPointer` reads) |
| IR.Context.GetTerminator | accsys/include/ir/ir.h:602-606 | there is a terminator exactly when the block is non-empty and ends in `ret`, `br`, `jump` or `panic`, and then it is the last instruction |
| IR.Context.BlockSize | accsys/include/ir/ir.h:621 | the size is the number of distinct instructions in the block |
| IR.Context.BlockEmpty | accsys/include/ir/ir.h:622 | a block is empty exactly when its size is 0, and an empty block has no terminator |
| Containers.ArgRange | accsys/include/ir/ir.h:721-724 | the argument range has `NumArgs` entries, and the one at position k is numbered k |
| Containers.ArgEmpty | accsys/include/ir/ir.h:730-731 | `arg_empty` holds exactly when the argument range is empty |
| Containers.GetArg | accsys/include/ir/ir.h:725-728 | requires `index < NumArgs`; returns the argument at that position of the range, numbered `index` |
| Containers.ArgRangeIsGetArgs | accsys/include/ir/ir.h:721-731 | walking the argument range meets exactly the arguments `getArg` returns, in order |
| Containers.GetNumParams | accsys/include/ir/ir.h:695 | a function's parameter count is its argument count |
| Containers.FunctionReturnType | accsys/include/ir/ir.h:694 | the return type is the result type of the function's type |
| Containers.Empty | accsys/include/ir/ir.h:713-714 | a function is empty exactly when it has 0 blocks |
| Containers.Front | accsys/include/ir/ir.h:715-716 | `front` is the first block of the function's list |
| Containers.Back | accsys/include/ir/ir.h:717-718 | `back` is the last block of the function's list |
| Containers.GetEntryBlock | accsys/include/ir/ir.h:700-701 | the entry block is the first block, the one `front` gives; in a one-block function it is also `back` |
| Containers.GetFunction | accsys/include/ir/ir.h:790-792 | a function is found exactly when its name is in the symbol map, and it is then a function of the module with that name |
| Containers.GetGlobalVariable | accsys/include/ir/ir.h:806-808 | a global is found exactly when its name is in the symbol map, and it is then a global of the module with that name |
| Containers.ModuleEmpty | accsys/include/ir/ir.h:803-804 | a module is empty exactly when it has no functions |
| Containers.GlobalEmpty | accsys/include/ir/ir.h:815-816 | `global_empty` holds exactly when there are no global variables |
| SymTable.Pushed | include/sa/sa.h:41-46 | `new_env` adds one empty scope on top and keeps the others and the function name |
| SymTable.Popped | include/sa/sa.h:48-51 | `quit_env` drops exactly the innermost scope |
| SymTable.WithEntry | include/sa/sa.h:34-39 | `add_one_entry` binds the name in the innermost scope, overwriting any old binding, and changes no outer scope |
| SymTable.LookupIn | include/sa/sa.h:53-58 | a name is found exactly when the innermost scope binds it, with that binding |
| SymTable.PopPushed | include/sa/sa.h:41-51 | `new_env` then `quit_env` restores the table |
| SymTable.LookupWithEntry | include/sa/sa.h:34-58 | a lookup right after `add_one_entry(n, t)` finds `t`, and other names are unaffected |
| SymTable.LookupPushed | include/sa/sa.h:41-58 | nothing is found in a scope just opened, whatever outer scopes bind |
| SymTable.QuitForgetsEntries | include/sa/sa.h:34-51 | entries added in a scope are forgotten when it is quit |
| SymTable.SameInnermostSteps | include/sa/sa.h:34-58 | tables with the same innermost scope answer every lookup alike, and stay so after the same addition or a new scope |
| SymTable.Table.constructor | include/sa/sa.h:20-24 | a new table has no scope and an empty function name |
| SymTable.Table.Copy | src/sa/sa.cpp:10 | passing a table by value gives a new table with the same contents |
| SymTable.Table.SetFuncName | include/sa/sa.h:26-32 | records the function name, which `get_cur_func_name` then returns, and leaves the scopes alone |
| SymTable.Table.AddOneEntry | include/sa/sa.h:34-39 | requires a scope; the contents become `WithEntry` of the old contents, and it reports 0 |
| SymTable.Table.NewEnv | include/sa/sa.h:41-46 | the contents become `Pushed` of the old contents |
| SymTable.Table.QuitEnv | include/sa/sa.h:48-51 | requires a scope; the contents become `Popped` of the old contents |
| SymTable.Table.Lookup | include/sa/sa.h:53-58 | requires a scope; finds a name exactly when the innermost scope binds it |
| Sema.Equal | src/sa/sa.cpp:233-235 | `equal` holds exactly when the two types are the same |
| Sema.EqualReflexiveSymmetric | src/sa/sa.cpp:233-235 | `equal` is reflexive and symmetric |
| Sema.VarOf | src/sa/sa.cpp:300 | a variable's type is its innermost binding, or `FAIL` when it is unbound |
| Sema.FuncOf | src/sa/sa.cpp:262 | a function's type is its innermost binding, or one with return type `FAIL` when it is unbound |
| Sema.NumberAndUnaryRule | src/sa/sa.cpp:269-310 | a number has type (INT, 0); a unary expression has its operand's type |
| Sema.BinaryRule | src/sa/sa.cpp:245-282 | a binary or assignment node passes exactly when both sides pass with the same type, and then has it; the order of the sides does not matter |
| Sema.VarExprRule | src/sa/sa.cpp:298-302 | a variable use passes exactly when the innermost scope binds it to a non-failed type of matching dimension, and then has that type |
| Sema.ReturnRule | src/sa/sa.cpp:258-265 | a return passes exactly when its expression passes with the current function's declared return type |
| Sema.FuncExprRule | src/sa/sa.cpp:286-294 | a call passes exactly when every named argument has its declared type and the callee is bound with a non-failed return type, which is then the call's type |
| Sema.TypeCheckKnown | src/sa/sa.cpp:241-311 | `type_check` invents no type: each result is `FAIL`, `INT`, or a type bound in the innermost scopes |
| Sema.TypeCheckInnermost | src/sa/sa.cpp:241-311 | `type_check` depends only on the innermost scopes and the current function name |
| Sema.DeclaredThenUsed | src/sa/sa.cpp:298-302 | a variable just declared is used at its declared type with matching indices; inside a new scope it is not found |
| Sema.DeclWalk | src/sa/sa.cpp:25-34 | the declaration loop keeps the number of scopes |
| Sema.BindParams | src/sa/sa.cpp:47-48 | the parameter loop keeps the number of scopes |
| Sema.SaSpec | src/sa/sa.cpp:10-231 | the answer of the corrected `sa` is always 0 or -1 |
| Sema.RootWalk | src/sa/sa.cpp:20-57 | the root loop answers 0 or -1 |
| Sema.BlockWalk | src/sa/sa.cpp:71-93 | the block loop, in which declarations fill the block's scope and every other item goes to `type_check`, answers 0 or -1 |
| Sema.DeclareVars | src/sa/sa.cpp:25-34 | the declaration loop on a table succeeds exactly when `DeclWalk` does, and then leaves the table in the state `DeclWalk` gives |
| Sema.BindParamsInto | src/sa/sa.cpp:47-48 | the parameter loop leaves the table in the state `BindParams` gives |
| Sema.DefineFunction | src/sa/sa.cpp:43-50 | the function enters the function table, its parameters enter the variable table, and its name becomes current |
| Sema.Sa | src/sa/sa.cpp:10-231 | `sa` on any well-formed node answers what `SaSpec` says |
| Sema.SaRoot | src/sa/sa.cpp:15-62 | the root case answers what `SaSpec` says |
| Sema.RootItem | src/sa/sa.cpp:22-56 | one root item either makes the rest of the walk answer -1, or moves the walk to the next item on the updated tables |
| Sema.SaBlock | src/sa/sa.cpp:65-98 | the corrected block case answers what `SaSpec` says |
| Sema.BlockItem | src/sa/sa.cpp:73-92 | one block item, a declaration or a statement handed to `type_check`, either makes the rest of the walk answer -1, or moves the walk on |
| Sema.SemanticAnalysis | src/sa/sa.cpp:4-8 | `semantic_analysis` answers `SaSpec` of the root with two fresh tables, so always 0 or -1 |
| Sema.SaSpecInnermost | src/sa/sa.cpp:10-231 | `sa` depends only on the innermost scopes and the current function name of the tables it gets, and on a root only on that name |
| Sema.CondStmtAsWritten | src/sa/sa.cpp:182-184 | as written, the `if` and `while` cases answer -1 whatever the condition's type |
| Sema.StraySemicolonExample | src/sa/sa.cpp:179-214 | `if (1) break;` and `while (1) continue;` are rejected as written and accepted by the corrected walker |
| Sema.BlockAsWrittenDiverges | src/sa/sa.cpp:65-176 | as written, a block whose items all pass re-enters itself without end: no fuel bound is enough |
| Sema.CorrectedBlockAnswers | src/sa/sa.cpp:65-176 | a block whose items pass is accepted by the corrected case, where as written no fuel bound gives an answer; a block with a failing item is rejected by both |

## Definitions

These members define what the source computes and carry no contract of their own. The properties of each are stated by the contracts of the "## Model" rows named here.

| definition | source | computes | stated by |
|---|---|---|---|
| Types.GetTypeID | include/ir/type.h:51-58, 76 | the tag of a type: integer, unit, pointer or function | Types.ExactlyOneTag, Types.PrimitiveSingletons |
| Types.IsIntegerTy, Types.IsUnitTy, Types.IsPointerTy, Types.IsFunctionTy | include/ir/type.h:78-81 | whether the tag is the named one | Types.ExactlyOneTag, Types.PrimitiveSingletons, Types.PointerRoundTrip |
| Types.PointerClassof, Types.FunctionClassof | include/ir/type.h:105-107, 132-134 | whether the tag is the pointer (function) tag | Types.ClassofMatchesTag, Types.PointerRoundTrip |
| Kinds.InstructionClassof | accsys/include/ir/ir.h:251-253 | whether a tag is at least `InstructionVal` | Kinds.OpcodeRoundTrip, Kinds.KindRanges |
| Kinds.IsBinaryOp, Kinds.IsTerminator | accsys/include/ir/ir.h:243-249 | the inclusive binary and terminator opcode ranges | Kinds.TerminatorOpcodes |
| Kinds.BinaryClassof | accsys/include/ir/ir.h:312-314 | an instruction whose opcode is a binary one | Kinds.OpcodeRoundTrip, Kinds.TerminatorOpcodes |
| Kinds.ConstantClassof, Kinds.ConstantIntClassof, Kinds.ConstantUnitClassof | accsys/include/ir/ir.h:147-176 | the inclusive constant range and the two exact constant tags | Kinds.KindRanges |
| Kinds.ArgumentClassof | accsys/include/ir/ir.h:644-646 | whether a tag is `ArgumentVal` | Kinds.KindRanges |
| OffsetFold.CodeOffset | src/ir/ir.cpp:293-316 | the sum of the indices times the code's strides | OffsetFold.CodeStrides, OffsetFold.CodeOffsetExample |
| OffsetFold.RowMajorOffset | accsys/include/ir/ir.h:433-437 | the sum of the indices times the row-major strides | OffsetFold.RowMajorStrides, OffsetFold.RowMajorExample, OffsetFold.RowMajorInRegion, IR.Context.AccumulateConstantOffset |
| OffsetFold.OffsetAssertOKAsWritten | src/ir/ir.cpp:244-249 | the as-written check: a pointer operand of the element type, and a use count one more than the bounds | OffsetFold.FreshOffsetFailsAssertOK |
| OffsetFold.OffsetAssertOK | src/ir/ir.cpp:244-249 | the intended check, with the operand count in place of the use count | OffsetFold.OffsetAssertOKAccepts, IR.Context.CreateOffset |
| Containers.Size | accsys/include/ir/ir.h:713 | the number of blocks of a function | Containers.Empty, Containers.GetEntryBlock |
| Containers.ArgSize | accsys/include/ir/ir.h:730 | `NumArgs` | Containers.ArgRange, Containers.ArgEmpty, Containers.GetNumParams |
| Containers.ModuleSize | accsys/include/ir/ir.h:803 | the number of functions of a module | Containers.ModuleEmpty |
| Containers.GlobalSize | accsys/include/ir/ir.h:815 | the number of global variables of a module | Containers.GlobalEmpty |
| SymTable.Table.GetCurFuncName | include/sa/sa.h:30-32 | the recorded current function name | SymTable.Table.SetFuncName |
| Sema.Combine | src/sa/sa.cpp:248-252, 279-281 | the type of two operands: the left one when neither failed and they are equal, otherwise `FAIL` | Sema.BinaryRule |
| Sema.TypeCheck | src/sa/sa.cpp:241-311 | `type_check` on the nodes it has a case for | Sema.NumberAndUnaryRule, Sema.BinaryRule, Sema.VarExprRule, Sema.ReturnRule, Sema.FuncExprRule, Sema.TypeCheckKnown, Sema.TypeCheckInnermost, Sema.DeclaredThenUsed |
| Sema.SaBlockAsWritten | src/sa/sa.cpp:65-176 | the as-written block case, with a bound on the nested calls | Sema.BlockAsWrittenDiverges, Sema.CorrectedBlockAnswers |

## Left out

- Memory management is not modelled: `malloc` in `Buffer`, `free`, destructors and `delete`. Erasing an instruction unlinks it and detaches its operand uses; its arena record stays.
- The `thread_local` type caches are not modelled. Neither are the bodies of `PointerType::get`, `FunctionType::get`, `getPrimitiveTy` and the `Type` shorthand accessors, which are declared only. Types are structural values, so equal types are equal values.
- The intrusive lists of `utils/list.h` and the casts of `utils/casting.h` are not part of this model. User lists, block lists and function lists are sequences of ids. `Use::addToList` is modelled by its evident intent, which is to put the use in front of the list. As written, its two branches are swapped: it dereferences a null head, and it overwrites a non-null one. `Use::removeFromList` compares the use's user with the head and is modelled by its intent, which is to take exactly this use off the list.
- The numeric values of value kinds and opcodes come from `ir.def`, which is not part of this model. `Kinds` uses placeholder constants that keep only the orderings and ranges the code relies on.
- IR.Context.NewInstruction: accepts a null operand followed by further operands and leaves its use targeting nothing. The source grows the operand vector one use at a time with no reserve. Each reallocation moves the existing uses through `Use(Use&&)` (src/ir/ir.cpp:11-19), which dereferences the target with no null test. So a null operand crashes once a later operand triggers a reallocation, which depends on the library's growth policy.
- IR.Context.CreateStore: accepts a null value operand with the same unmodelled crash as `IR.Context.NewInstruction`.
- IR.Context.CreateOffset: accepts a null index before later operands with the same unmodelled crash as `IR.Context.NewInstruction`.
- The block list of `Containers.Func` is a sequence of block ids. Nothing links it to the blocks of the arena in `IR.Context`, because the code that would fill it (`Function::insert`, `BasicBlock::Create`) has no body.
- IR.Context.CreateConstantInt: stores the constant's value, as `getValue` evidently intends. As written, the constructor never stores it, so `getValue` reads an indeterminate value.
- IR.Context.CreateAlloca: does not store `NumElements` or `AllocatedType`, because the source's constructors never set them either. `getAllocatedType` and `getNumElements` are therefore not modelled.
- IR.Context.CreateBranch: does not store the two target blocks, because the source's constructors never set them either. `getTrueBB` and `getFalseBB` are therefore not modelled.
- IR.Context.RemoveFromParent: keeps the parent naming the old block, as written. For that reason the IR invariant only says that a listed instruction names its block. `InsertBefore` and `InsertAfter` require an instruction that is in no list. `InsertInto` requires one whose parent is null, as the source asserts.
- IR.Context.MoveUse: requires a source use with a target. As written, the move dereferences the target unconditionally.
- IR.Context.AccumulateConstantOffset: requires at least one bound, because `Bounds.begin() + 1` is past the end of an empty vector. It also requires every bound after the first to be present; on a missing one, `std::optional::value` throws. It follows the documented row-major strides and index operands. The as-written scan and strides are in "## Findings".
- The constructors of `LoadInst`, `CallInst`, `RetInst`, `JumpInst` and `PanicInst` are not modelled. The same holds for `Function::Create`, `GlobalVariable::Create`, `BasicBlock::Create`, `Function::insert` and the `BasicBlock` and `Function` parent pointers and for `BasicBlock::insertInto`. All of these are declared but have no body. `IR.Context.AddBlock` stands in for block creation. Their operands are read through `IR.Context.GetOperand`.
- Containers.GetFunction: `Module::getFunction` and `getGlobalVariable` are declared only. They are modelled as optional lookups in the symbol maps, with null as `None`.
- Iterators (`begin`/`end`/reverse) are not modelled; the ordered sequences they walk are modelled instead.
- SymTable.Table.Lookup: returns `None` where the source returns the value `FAIL` converted to `T`. `Sema.VarOf` and `Sema.FuncOf` turn `None` into `varType(FAIL, 0)` and into a function type whose return type is `FAIL`. The parameter list of the second is left empty, because `sa` never reads it.
- SymTable.Table.AddOneEntry and the `sa` loops: the source's `!= 0` tests on `add_one_entry` can never fire, so they are left out.
- Sema.TypeCheck: `type_check` has no case for root, function-definition, block, declaration, `if`, `while`, `break` and `continue` nodes, and reaching its end returns no value. The block case of `sa` hands every item that is not a declaration to `type_check` (src/sa/sa.cpp:91). So a block that holds a root, a function definition, a nested block, an `if`, a `while`, a `break` or a `continue` is outside the model: `BlockItemsOk`, part of `WellFormed`, excludes it. The `if` and `while` cases of `sa` are therefore reached only when `sa` is called on such a node directly.
- Sema.SemanticAnalysis: requires a root node and a well-formed tree. In a well-formed tree, every function definition has at least as many parameter types as parameter names, since the source reads `inputType[i]` unchecked.
- `FAIL` is taken to be 0 and `INT` to be 1. The source compares initialiser types against 0 for `FAIL`; the definitions of both constants are not part of this model.
- The AST is a datatype holding only the fields `sa` and `type_check` read. The following are not part of this model: parsing, printing, `free_ast`, and the `main` driver.

## Findings

| source | as written | input that shows it | evidently intended | confidence | as-written member | corrected member |
|---|---|---|---|---|---|---|
| src/ir/ir.cpp:248 | `OffsetInst::AssertOK` compares the instruction's own use count with the number of bounds plus 1 | any newly built offset: it has 0 uses, so the assertion fails on every construction | compare the number of operands (pointer plus indices) | not executed | OffsetFold.FreshOffsetFailsAssertOK | OffsetFold.OffsetAssertOKAccepts |
| src/ir/ir.cpp:301-307 | `accumulateConstantOffset` scans every operand, including operand 0, the pointer | any well-typed offset: operand 0 is a pointer, never a `ConstantInt`, so it returns false | scan the index operands only | not executed | Folding.PointerOperandStopsFold | IR.Context.AccumulateConstantOffset |
| src/ir/ir.cpp:294-312 | the strides are the single bounds after the first, then 1 | `int g[3][4][5]`, indices [1, 2, 3], bounds [3, 4, 5]: 17 instead of the documented 33 | row-major strides, each the product of the bounds to its right | not executed | OffsetFold.CodeOffsetExample | OffsetFold.RowMajorExample |
| src/sa/sa.cpp:65-176 | the block case does not return after leaving its scope, so the inner-block case runs `sa` on the same block again | any block whose items all pass, such as an empty function body: the recursion never ends | return 0 once the scope is left | not executed | Sema.BlockAsWrittenDiverges | Sema.CorrectedBlockAnswers |
| src/sa/sa.cpp:183-184 | a `;` ends the `if` of the condition test, so `return -1` always runs (the same at 206-207) | `if (1) break;` and `while (1) continue;` are rejected | return -1 only when the condition is not an integer scalar | not executed | Sema.StraySemicolonExample | Sema.SaSpec |
