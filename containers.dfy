/**
 * Functions, global variables and modules, as values: the containers that
 * hold the arguments, basic blocks and symbols of a program. Blocks are
 * named by their ids in the arena of module `Arenas`.
 */
module Containers {
  import opened Wrappers
  import opened Types
  import opened Kinds
  import opened DefUse
  import opened Tables

  /** A formal argument: a value of tag `ArgumentVal` numbered by its position. */
  datatype Argument = Argument(id: ValueId, ty: Ty, argNo: nat)

  /**
   * A function: its type, the argument array of `numArgs` entries, its
   * linkage, its name and its list of basic blocks.
   */
  datatype Func = Func(fTy: Ty, numArgs: nat, arguments: seq<Argument>,
                       externalLinkage: bool, name: string, blocks: seq<BlockId>)

  /**
   * The argument array has room for `numArgs` arguments, and the argument
   * at position k is numbered k.
   */
  predicate ArgsAllocated(f: Func)
  {
    && |f.arguments| >= f.numArgs
    && forall k | 0 <= k < f.numArgs :: f.arguments[k].argNo == k
  }

  /** `arg_size`: the number of arguments. */
  function ArgSize(f: Func): nat
  {
    f.numArgs
  }

  /** `[arg_begin, arg_end)`: the first `NumArgs` entries of the argument array. */
  function ArgRange(f: Func): (r: seq<Argument>)
    requires ArgsAllocated(f)
    ensures |r| == ArgSize(f)
    ensures forall k | 0 <= k < |r| :: r[k] == f.arguments[k] && r[k].argNo == k
  {
    f.arguments[..f.numArgs]
  }

  /** `arg_empty`: the argument range is empty. */
  predicate ArgEmpty(f: Func)
    requires ArgsAllocated(f)
    ensures ArgEmpty(f) <==> ArgRange(f) == []
  {
    ArgSize(f) == 0
  }

  /**
   * `getArg(index)`: demands `index < NumArgs` and gives the argument at that
   * offset of the range, the one numbered `index`.
   */
  function GetArg(f: Func, index: nat): (r: Argument)
    requires ArgsAllocated(f) && index < f.numArgs
    ensures r == ArgRange(f)[index]
    ensures r.argNo == index
  {
    f.arguments[index]
  }

  /**
   * Walking the argument range meets every argument `getArg` can return, in
   * order, and nothing else.
   */
  lemma ArgRangeIsGetArgs(f: Func)
    requires ArgsAllocated(f)
    ensures forall k | 0 <= k < f.numArgs :: ArgRange(f)[k] == GetArg(f, k)
    ensures forall a | a in ArgRange(f) :: a.argNo < f.numArgs && a == GetArg(f, a.argNo)
  {
    var r := ArgRange(f);
    forall a | a in r ensures a.argNo < f.numArgs && a == GetArg(f, a.argNo) {
      var k :| 0 <= k < |r| && r[k] == a;
      assert a.argNo == k;
    }
  }

  /** `getNumParams`: the function's own argument count. */
  function GetNumParams(f: Func): (n: nat)
    ensures n == ArgSize(f)
  {
    f.numArgs
  }

  /** `getReturnType`: the result type of the function's type. */
  function FunctionReturnType(f: Func): (t: Ty)
    requires FunctionClassof(f.fTy)
    ensures f.fTy == Function(t, f.fTy.params)
  {
    GetReturnType(f.fTy)
  }

  /** `size`: the number of basic blocks. */
  function Size(f: Func): nat
  {
    |f.blocks|
  }

  /** `empty`: the function has no basic blocks. */
  predicate Empty(f: Func)
    ensures Empty(f) <==> Size(f) == 0
  {
    f.blocks == []
  }

  /** `front`: the first block of a non-empty function. */
  function Front(f: Func): (b: BlockId)
    requires !Empty(f)
    ensures b in f.blocks && b == f.blocks[0]
  {
    f.blocks[0]
  }

  /** `back`: the last block of a non-empty function. */
  function Back(f: Func): (b: BlockId)
    requires !Empty(f)
    ensures b in f.blocks && b == f.blocks[|f.blocks| - 1]
  {
    f.blocks[|f.blocks| - 1]
  }

  /**
   * `getEntryBlock`: the first block of the list, so the block `front`
   * returns; in a one-block function it is also the last.
   */
  function GetEntryBlock(f: Func): (b: BlockId)
    requires !Empty(f)
    ensures b == Front(f)
    ensures Size(f) == 1 ==> b == Back(f)
    ensures f.blocks == [b] + f.blocks[1..]
  {
    f.blocks[0]
  }

  /** A global variable: element type, region size, linkage and name. */
  datatype GlobalVariable = GlobalVariable(id: ValueId, eleTy: Ty, numElements: nat,
                                           externalLinkage: bool, name: string)

  /**
   * A module: its lists of functions and global variables, and the symbol
   * maps from names to positions in those lists.
   */
  datatype Module = Module(functions: seq<Func>, globals: seq<GlobalVariable>,
                           symbolFunctions: map<string, nat>, symbolGlobals: map<string, nat>)

  /** Every symbol names an entry of the right list that carries that name. */
  predicate SymbolsOk(m: Module)
  {
    && (forall n | n in m.symbolFunctions ::
          m.symbolFunctions[n] < |m.functions| && m.functions[m.symbolFunctions[n]].name == n)
    && (forall n | n in m.symbolGlobals ::
          m.symbolGlobals[n] < |m.globals| && m.globals[m.symbolGlobals[n]].name == n)
  }

  /**
   * `getFunction`: a lookup in the function symbol map; null for a name
   * that is not there, and otherwise a function of the module of that name.
   */
  function GetFunction(m: Module, name: string): (r: Option<Func>)
    requires SymbolsOk(m)
    ensures r.Some? <==> name in m.symbolFunctions
    ensures r.Some? ==> r.value in m.functions && r.value.name == name
  {
    if name in m.symbolFunctions then Some(m.functions[m.symbolFunctions[name]]) else None
  }

  /** `getGlobalVariable`: the same lookup in the global symbol map. */
  function GetGlobalVariable(m: Module, name: string): (r: Option<GlobalVariable>)
    requires SymbolsOk(m)
    ensures r.Some? <==> name in m.symbolGlobals
    ensures r.Some? ==> r.value in m.globals && r.value.name == name
  {
    if name in m.symbolGlobals then Some(m.globals[m.symbolGlobals[name]]) else None
  }

  /** `Module::size`: the number of functions. */
  function ModuleSize(m: Module): nat
  {
    |m.functions|
  }

  /** `Module::empty`: the module has no functions. */
  predicate ModuleEmpty(m: Module)
    ensures ModuleEmpty(m) <==> ModuleSize(m) == 0
  {
    m.functions == []
  }

  /** `global_size`: the number of global variables. */
  function GlobalSize(m: Module): nat
  {
    |m.globals|
  }

  /** `global_empty`: the module has no global variables. */
  predicate GlobalEmpty(m: Module)
    ensures GlobalEmpty(m) <==> GlobalSize(m) == 0
  {
    m.globals == []
  }
}
