/**
 * Semantic analysis: the typing rules of `type_check`, the statement walker
 * `sa`, and the entry point `semantic_analysis`. The tables are passed by
 * value throughout, so they appear here as `TableState` values, and each
 * call works on `Table` objects of its own.
 */
module Sema {
  import opened Wrappers
  import opened SymTable

  /** The base-type tag of a failed check; declaration initialisers are compared against 0 for it. */
  const FAIL: int := 0
  /** The base-type tag of integers: some tag other than `FAIL`. */
  const INT: int := 1

  /** `varType`: a base-type tag and an array dimension. */
  datatype VarType = VarType(base: int, dimension: nat)

  /** `varType(FAIL, 0)`. */
  const FailType: VarType := VarType(FAIL, 0)
  /** `varType(INT, 0)`. */
  const IntType: VarType := VarType(INT, 0)

  /** `FuncType`: the declared return type and parameter types. */
  datatype FuncType = FuncType(returnType: VarType, inputType: seq<VarType>)

  /** One declared variable of a `TreeVarDecl`: its name, type and initialiser node. */
  datatype Declarator = Declarator(name: string, ty: VarType, init: Option<Node>)

  /** The syntax tree nodes `sa` and `type_check` distinguish. */
  datatype Node =
    | Root(rootItems: seq<Node>)
    | VarDecl(decls: seq<Declarator>)
    | FuncDef(funcName: string, fType: FuncType, varNames: seq<string>, blockNode: Node)
    | Block(blockItems: seq<Node>)
    | AssignStmt(lhs: Node, rhs: Node)
    | UnaryExpr(op: int, operand: Node)
    | BinaryExpr(op: int, lhs: Node, rhs: Node)
    | FuncExpr(name: string, inputParams: map<string, VarType>)
    | VarExpr(name: string, index: seq<Node>)
    | Number(value: int)
    | IfStmt(conditionExp: Node, trueStmt: Node, elseStmt: Option<Node>)
    | WhileStmt(conditionExp: Node, trueStmt: Node)
    | BreakStmt
    | ContinueStmt
    | ReturnStmt(returnExp: Node)

  /** `equal`: base types and dimensions match, which for `VarType` is plain equality. */
  function Equal(a: VarType, b: VarType): (r: bool)
    ensures r <==> a == b
  {
    a.base == b.base && a.dimension == b.dimension
  }

  /** `equal` is reflexive and symmetric. */
  lemma EqualReflexiveSymmetric(a: VarType, b: VarType)
    ensures Equal(a, a)
    ensures Equal(a, b) == Equal(b, a)
  {
  }

  /** The variable's type, or `FAIL` when the innermost scope does not bind it. */
  function VarOf(vars: TableState<VarType>, name: string): (t: VarType)
    requires |vars.scopes| > 0
    ensures LookupIn(vars, name).Some? ==> t == LookupIn(vars, name).value
    ensures LookupIn(vars, name).None? ==> t == FailType
  {
    match LookupIn(vars, name)
    case Some(t) => t
    case None => FailType
  }

  /** The function's type, or one whose return type is `FAIL` when it is not bound. */
  function FuncOf(funcs: TableState<FuncType>, name: string): (f: FuncType)
    requires |funcs.scopes| > 0
    ensures LookupIn(funcs, name).Some? ==> f == LookupIn(funcs, name).value
    ensures LookupIn(funcs, name).None? ==> f.returnType == FailType
  {
    match LookupIn(funcs, name)
    case Some(f) => f
    case None => FuncType(FailType, [])
  }

  /**
   * The nodes `type_check` has a case for, all the way down the
   * subexpressions it checks; on any other node it returns no value.
   */
  predicate Checkable(n: Node)
  {
    match n
    case AssignStmt(l, r) => Checkable(l) && Checkable(r)
    case ReturnStmt(e) => Checkable(e)
    case UnaryExpr(_, e) => Checkable(e)
    case BinaryExpr(_, l, r) => Checkable(l) && Checkable(r)
    case FuncExpr(_, _) => true
    case VarExpr(_, _) => true
    case Number(_) => true
    case _ => false
  }

  /** Two operand types combine when neither failed and they are equal; the left one is the result. */
  function Combine(left: VarType, right: VarType): VarType
  {
    if left.base == FAIL || right.base == FAIL then FailType
    else if Equal(left, right) then left
    else FailType
  }

  /** `type_check`. */
  function TypeCheck(n: Node, vars: TableState<VarType>, funcs: TableState<FuncType>): (r: VarType)
    requires Checkable(n) && |vars.scopes| > 0 && |funcs.scopes| > 0
  {
    match n
    case AssignStmt(l, r) => Combine(TypeCheck(l, vars, funcs), TypeCheck(r, vars, funcs))
    case ReturnStmt(e) =>
      var res := TypeCheck(e, vars, funcs);
      if res.base == FAIL then FailType
      else if Equal(res, FuncOf(funcs, funcs.curFuncName).returnType) then res
      else FailType
    case UnaryExpr(_, e) => TypeCheck(e, vars, funcs)
    case BinaryExpr(_, l, r) => Combine(TypeCheck(l, vars, funcs), TypeCheck(r, vars, funcs))
    case FuncExpr(name, params) =>
      if forall p | p in params :: Equal(VarOf(vars, p), params[p])
      then FuncOf(funcs, name).returnType
      else FailType
    case VarExpr(name, index) =>
      var v := VarOf(vars, name);
      if v.dimension == |index| then v else FailType
    case Number(_) => IntType
  }

  /**
   * A binary or assignment node passes exactly when both sides pass with the
   * same type, and then has that type; so the order of the sides does not
   * matter to the result.
   */
  lemma BinaryRule(op: int, l: Node, r: Node, vars: TableState<VarType>, funcs: TableState<FuncType>)
    requires Checkable(l) && Checkable(r) && |vars.scopes| > 0 && |funcs.scopes| > 0
    ensures var t := TypeCheck(BinaryExpr(op, l, r), vars, funcs);
      t.base != FAIL <==> (TypeCheck(l, vars, funcs).base != FAIL && TypeCheck(l, vars, funcs) == TypeCheck(r, vars, funcs))
    ensures var t := TypeCheck(BinaryExpr(op, l, r), vars, funcs);
      t.base != FAIL ==> t == TypeCheck(l, vars, funcs) && t == TypeCheck(r, vars, funcs)
    ensures TypeCheck(BinaryExpr(op, l, r), vars, funcs) == TypeCheck(BinaryExpr(op, r, l), vars, funcs)
    ensures TypeCheck(AssignStmt(l, r), vars, funcs) == TypeCheck(BinaryExpr(op, l, r), vars, funcs)
  {
  }

  /** Where a type can come from: a failure, an integer, a variable or a function result in scope. */
  ghost predicate Known(vars: TableState<VarType>, funcs: TableState<FuncType>, t: VarType)
    requires |vars.scopes| > 0 && |funcs.scopes| > 0
  {
    || t.base == FAIL || t == IntType
    || (exists x | x in Innermost(vars) :: Innermost(vars)[x] == t)
    || (exists f | f in Innermost(funcs) :: Innermost(funcs)[f].returnType == t)
  }

  /**
   * `type_check` invents no types: every result is `FAIL`, `INT`, or the
   * type of a variable or the return type of a function bound in the
   * innermost scope.
   */
  lemma {:induction false} TypeCheckKnown(n: Node, vars: TableState<VarType>, funcs: TableState<FuncType>)
    requires Checkable(n) && |vars.scopes| > 0 && |funcs.scopes| > 0
    ensures Known(vars, funcs, TypeCheck(n, vars, funcs))
  {
    var top := Innermost(vars);
    var ftop := Innermost(funcs);
    match n
    case AssignStmt(l, r) => TypeCheckKnown(l, vars, funcs);
    case BinaryExpr(_, l, r) => TypeCheckKnown(l, vars, funcs);
    case UnaryExpr(_, e) => TypeCheckKnown(e, vars, funcs);
    case ReturnStmt(e) => TypeCheckKnown(e, vars, funcs);
    case FuncExpr(name, _) =>
      if name in ftop { assert ftop[name].returnType == FuncOf(funcs, name).returnType; }
    case VarExpr(name, _) =>
      if name in top { assert top[name] == VarOf(vars, name); }
    case Number(_) =>
  }

  /** `type_check` reads only the innermost scopes and the current function name. */
  lemma {:induction false} TypeCheckInnermost(n: Node, v1: TableState<VarType>, v2: TableState<VarType>,
                                             f1: TableState<FuncType>, f2: TableState<FuncType>)
    requires Checkable(n) && SameInnermost(v1, v2) && SameInnermost(f1, f2) && f1.curFuncName == f2.curFuncName
    ensures TypeCheck(n, v1, f1) == TypeCheck(n, v2, f2)
  {
    match n
    case AssignStmt(l, r) => TypeCheckInnermost(l, v1, v2, f1, f2); TypeCheckInnermost(r, v1, v2, f1, f2);
    case BinaryExpr(_, l, r) => TypeCheckInnermost(l, v1, v2, f1, f2); TypeCheckInnermost(r, v1, v2, f1, f2);
    case UnaryExpr(_, e) => TypeCheckInnermost(e, v1, v2, f1, f2);
    case ReturnStmt(e) => TypeCheckInnermost(e, v1, v2, f1, f2);
    case FuncExpr(_, params) =>
      forall p | p in params ensures VarOf(v1, p) == VarOf(v2, p) { SameInnermostSteps(v1, v2, p, FailType); }
    case VarExpr(_, _) =>
    case Number(_) =>
  }

  /**
   * A variable declared in the innermost scope is used at its declared type
   * with as many indices as its dimension; one declared only in an outer
   * scope is not found, so its use fails.
   */
  lemma DeclaredThenUsed(vars: TableState<VarType>, funcs: TableState<FuncType>, x: string, t: VarType, index: seq<Node>)
    requires |vars.scopes| > 0 && |funcs.scopes| > 0
    ensures TypeCheck(VarExpr(x, index), WithEntry(vars, x, t), funcs) == (if t.dimension == |index| then t else FailType)
    ensures TypeCheck(VarExpr(x, index), Pushed(WithEntry(vars, x, t)), funcs).base == FAIL
  {
    LookupWithEntry(vars, x, t, x);
    LookupPushed(WithEntry(vars, x, t), x);
  }

  /** A number is an integer scalar; a unary expression has the type of its operand. */
  lemma NumberAndUnaryRule(v: int, op: int, e: Node, vars: TableState<VarType>, funcs: TableState<FuncType>)
    requires Checkable(e) && |vars.scopes| > 0 && |funcs.scopes| > 0
    ensures TypeCheck(Number(v), vars, funcs) == IntType && IntType.base != FAIL
    ensures TypeCheck(UnaryExpr(op, e), vars, funcs) == TypeCheck(e, vars, funcs)
  {
  }

  /**
   * A variable use passes exactly when the innermost scope binds the name to
   * a non-failed type whose dimension is the number of indices, and then it
   * has that type.
   */
  lemma VarExprRule(x: string, index: seq<Node>, vars: TableState<VarType>, funcs: TableState<FuncType>)
    requires |vars.scopes| > 0 && |funcs.scopes| > 0
    ensures var t := TypeCheck(VarExpr(x, index), vars, funcs);
      t.base != FAIL <==> LookupIn(vars, x).Some? && LookupIn(vars, x).value.base != FAIL
                          && LookupIn(vars, x).value.dimension == |index|
    ensures var t := TypeCheck(VarExpr(x, index), vars, funcs);
      t.base != FAIL ==> t == LookupIn(vars, x).value
  {
  }

  /**
   * A return statement passes exactly when its expression passes and the
   * current function is bound with that very type as its return type.
   */
  lemma ReturnRule(e: Node, vars: TableState<VarType>, funcs: TableState<FuncType>)
    requires Checkable(e) && |vars.scopes| > 0 && |funcs.scopes| > 0
    ensures var t := TypeCheck(ReturnStmt(e), vars, funcs);
      var f := LookupIn(funcs, funcs.curFuncName);
      t.base != FAIL <==> TypeCheck(e, vars, funcs).base != FAIL && f.Some? && f.value.returnType == TypeCheck(e, vars, funcs)
    ensures var t := TypeCheck(ReturnStmt(e), vars, funcs);
      t.base != FAIL ==> t == TypeCheck(e, vars, funcs)
  {
  }

  /**
   * A call passes exactly when every named argument has its declared type
   * (an unbound name counting as `FAIL`) and the callee is bound with a
   * non-failed return type, which is then the call's type.
   */
  lemma FuncExprRule(name: string, params: map<string, VarType>, vars: TableState<VarType>, funcs: TableState<FuncType>)
    requires |vars.scopes| > 0 && |funcs.scopes| > 0
    ensures var t := TypeCheck(FuncExpr(name, params), vars, funcs);
      var f := LookupIn(funcs, name);
      t.base != FAIL <==> (forall p | p in params :: VarOf(vars, p) == params[p]) && f.Some? && f.value.returnType.base != FAIL
    ensures var t := TypeCheck(FuncExpr(name, params), vars, funcs);
      t.base != FAIL ==> t == LookupIn(funcs, name).value.returnType
  {
  }

  /** The declarations' initialisers that `sa` type-checks are ones `type_check` handles. */
  predicate DeclsOk(decls: seq<Declarator>)
  {
    forall k | 0 <= k < |decls| :: decls[k].init.Some? && decls[k].init.value.AssignStmt? ==>
      Checkable(decls[k].init.value)
  }

  /**
   * Block items as the block case of `sa` takes them: a declaration, or a
   * statement it hands straight to `type_check`, which has a case for it.
   */
  predicate BlockItemsOk(items: seq<Node>)
  {
    forall k | 0 <= k < |items| :: if items[k].VarDecl? then DeclsOk(items[k].decls) else Checkable(items[k])
  }

  /**
   * Nodes on which `sa` reaches no `type_check` without a case and reads no
   * missing parameter type. Root items other than declarations and function
   * definitions are skipped unread, so nothing is asked of them.
   */
  predicate WellFormed(n: Node)
  {
    match n
    case Root(items) => forall k | 0 <= k < |items| :: (items[k].VarDecl? || items[k].FuncDef?) ==> WellFormed(items[k])
    case Block(items) => BlockItemsOk(items)
    case VarDecl(decls) => DeclsOk(decls)
    case FuncDef(_, ft, names, b) => |names| <= |ft.inputType| && WellFormed(b)
    case IfStmt(c, t, e) => Checkable(c) && WellFormed(t) && (e.Some? ==> WellFormed(e.value))
    case WhileStmt(c, t) => Checkable(c) && WellFormed(t)
    case BreakStmt => true
    case ContinueStmt => true
    case _ => Checkable(n)
  }

  /**
   * The declaration loop from declarator `k` on: each variable is added to
   * the innermost scope before its initialiser, if it has an assignment,
   * is checked; `None` when a check fails.
   */
  function DeclWalk(decls: seq<Declarator>, k: nat, vs: TableState<VarType>, fs: TableState<FuncType>)
    : (r: Option<TableState<VarType>>)
    requires k <= |decls| && DeclsOk(decls) && |vs.scopes| > 0 && |fs.scopes| > 0
    ensures r.Some? ==> |r.value.scopes| == |vs.scopes|
    decreases |decls| - k
  {
    if k == |decls| then Some(vs)
    else
      var d := decls[k];
      var vs1 := WithEntry(vs, d.name, d.ty);
      if d.init.Some? && d.init.value.AssignStmt? && TypeCheck(d.init.value, vs1, fs).base == FAIL then None
      else DeclWalk(decls, k + 1, vs1, fs)
  }

  /** The parameter loop of a function definition from parameter `k` on. */
  function BindParams(vs: TableState<VarType>, names: seq<string>, types: seq<VarType>, k: nat): (r: TableState<VarType>)
    requires |vs.scopes| > 0 && k <= |names| <= |types|
    ensures |r.scopes| == |vs.scopes|
    decreases |names| - k
  {
    if k == |names| then vs else BindParams(WithEntry(vs, names[k], types[k]), names, types, k + 1)
  }

  /**
   * What `sa` answers for a node, 0 for success and -1 for a rejection: the
   * source's walker with the block case returning once its scope is left,
   * and the conditions of `if` and `while` actually guarding their
   * `return -1`.
   */
  function SaSpec(n: Node, vars: TableState<VarType>, funcs: TableState<FuncType>): (r: int)
    requires WellFormed(n) && (n.Root? || (|vars.scopes| > 0 && |funcs.scopes| > 0))
    ensures r == 0 || r == -1
    decreases n, 1, 0
  {
    if n.Root? then RootWalk(n, 0, Pushed(vars), Pushed(funcs))
    else if n.Block? then BlockWalk(n.blockItems, 0, Pushed(vars), funcs)
    else if n.IfStmt? then
      var ct := TypeCheck(n.conditionExp, vars, funcs);
      if ct.base != INT || ct.dimension != 0 then -1
      else if SaSpec(n.trueStmt, vars, funcs) != 0 then -1
      else if n.elseStmt.Some? && SaSpec(n.elseStmt.value, vars, funcs) != 0 then -1
      else 0
    else if n.WhileStmt? then
      var ct := TypeCheck(n.conditionExp, vars, funcs);
      if ct.base != INT || ct.dimension != 0 then -1
      else if SaSpec(n.trueStmt, vars, funcs) != 0 then -1
      else 0
    else if n.VarDecl? || n.FuncDef? || n.BreakStmt? || n.ContinueStmt? then 0
    else if TypeCheck(n, vars, funcs).base == FAIL then -1
    else 0
  }

  /**
   * The root loop from item `k` on. A declaration adds its variables to the
   * global scope; a function definition adds the function (`add_one_entry`
   * reports 0, so its failure branch is never taken), adds its parameters
   * to the global scope, records its name and analyses its body.
   */
  function RootWalk(n: Node, k: nat, vs: TableState<VarType>, fs: TableState<FuncType>): (r: int)
    requires n.Root? && WellFormed(n) && k <= |n.rootItems| && |vs.scopes| > 0 && |fs.scopes| > 0
    ensures r == 0 || r == -1
    decreases n, 0, |n.rootItems| - k
  {
    if k == |n.rootItems| then 0
    else
      var item := n.rootItems[k];
      if item.VarDecl? then
        assert WellFormed(item);
        match DeclWalk(item.decls, 0, vs, fs)
        case None => -1
        case Some(vs1) => RootWalk(n, k + 1, vs1, fs)
      else if item.FuncDef? then
        assert WellFormed(item);
        var vs1 := BindParams(vs, item.varNames, item.fType.inputType, 0);
        var fs1 := WithEntry(fs, item.funcName, item.fType).(curFuncName := item.funcName);
        if SaSpec(item.blockNode, vs1, fs1) != 0 then -1 else RootWalk(n, k + 1, vs1, fs1)
      else RootWalk(n, k + 1, vs, fs)
  }

  /**
   * The block loop from item `k` on: declarations fill the block's scope,
   * every other item goes straight to `type_check`, and a failed check
   * rejects the block.
   */
  function BlockWalk(items: seq<Node>, k: nat, vs: TableState<VarType>, fs: TableState<FuncType>): (r: int)
    requires BlockItemsOk(items) && k <= |items| && |vs.scopes| > 0 && |fs.scopes| > 0
    ensures r == 0 || r == -1
    decreases |items| - k
  {
    if k == |items| then 0
    else if items[k].VarDecl? then
      match DeclWalk(items[k].decls, 0, vs, fs)
      case None => -1
      case Some(vs1) => BlockWalk(items, k + 1, vs1, fs)
    else if TypeCheck(items[k], vs, fs).base == FAIL then -1
    else BlockWalk(items, k + 1, vs, fs)
  }

  /**
   * The declaration loop of `sa`: adds each variable to the innermost scope
   * of `varTable`, then checks its initialiser if it is an assignment.
   */
  method DeclareVars(varTable: Table<VarType>, funcs: TableState<FuncType>, decls: seq<Declarator>) returns (ok: bool)
    requires |varTable.scopes| > 0 && |funcs.scopes| > 0 && DeclsOk(decls)
    modifies varTable
    ensures |varTable.scopes| > 0
    ensures ok <==> DeclWalk(decls, 0, old(varTable.State()), funcs).Some?
    ensures ok ==> DeclWalk(decls, 0, old(varTable.State()), funcs) == Some(varTable.State())
  {
    var i := 0;
    while i < |decls|
      invariant i <= |decls| && |varTable.scopes| > 0
      invariant DeclWalk(decls, 0, old(varTable.State()), funcs) == DeclWalk(decls, i, varTable.State(), funcs)
    {
      // `add_one_entry` reports 0, so the source's `!= 0` test after it never fires.
      var st := varTable.AddOneEntry(decls[i].name, decls[i].ty);
      var init := decls[i].init;
      if init.Some? && init.value.AssignStmt? && TypeCheck(init.value, varTable.State(), funcs).base == FAIL {
        return false;
      }
      i := i + 1;
    }
    ok := true;
  }

  /** The parameter loop of a function definition: each parameter goes into the innermost scope. */
  method BindParamsInto(varTable: Table<VarType>, names: seq<string>, types: seq<VarType>)
    requires |varTable.scopes| > 0 && |names| <= |types|
    modifies varTable
    ensures varTable.State() == BindParams(old(varTable.State()), names, types, 0)
  {
    var i := 0;
    while i < |names|
      invariant i <= |names| && |varTable.scopes| > 0
      invariant BindParams(old(varTable.State()), names, types, 0) == BindParams(varTable.State(), names, types, i)
    {
      var st := varTable.AddOneEntry(names[i], types[i]);
      i := i + 1;
    }
  }

  /**
   * The start of the function-definition case: the function goes into the
   * function table, its parameters into the innermost variable scope, and
   * its name becomes the current function name.
   */
  method DefineFunction(varTable: Table<VarType>, funcTable: Table<FuncType>, def: Node)
    requires def.FuncDef? && |def.varNames| <= |def.fType.inputType|
    requires |varTable.scopes| > 0 && |funcTable.scopes| > 0
    modifies varTable, funcTable
    ensures varTable.State() == BindParams(old(varTable.State()), def.varNames, def.fType.inputType, 0)
    ensures funcTable.State() == WithEntry(old(funcTable.State()), def.funcName, def.fType).(curFuncName := def.funcName)
  {
    // As for declarations, the status test after `add_one_entry` never fires.
    var st := funcTable.AddOneEntry(def.funcName, def.fType);
    BindParamsInto(varTable, def.varNames, def.fType.inputType);
    funcTable.SetFuncName(def.funcName);
  }

  /**
   * `sa` on a node, with the tables it receives by value: each call copies
   * them into tables of its own, so nothing it does reaches the caller.
   */
  method Sa(node: Node, vars: TableState<VarType>, funcs: TableState<FuncType>) returns (status: int)
    requires WellFormed(node) && (node.Root? || (|vars.scopes| > 0 && |funcs.scopes| > 0))
    ensures status == SaSpec(node, vars, funcs)
    decreases node, 2
  {
    if node.Root? {
      status := SaRoot(node, vars, funcs);
    } else if node.Block? {
      status := SaBlock(node, vars, funcs);
    } else if node.IfStmt? || node.WhileStmt? {
      var ct := TypeCheck(node.conditionExp, vars, funcs);
      if ct.base != INT || ct.dimension != 0 {
        return -1;
      }
      var s := Sa(node.trueStmt, vars, funcs);
      if s != 0 {
        return -1;
      }
      if node.IfStmt? && node.elseStmt.Some? {
        s := Sa(node.elseStmt.value, vars, funcs);
        if s != 0 {
          return -1;
        }
      }
      return 0;
    } else if node.VarDecl? || node.FuncDef? || node.BreakStmt? || node.ContinueStmt? {
      return 0;
    } else {
      if TypeCheck(node, vars, funcs).base == FAIL {
        return -1;
      }
      return 0;
    }
  }

  /** The root case of `sa`: both tables get a global scope, then the items are walked in order. */
  method SaRoot(node: Node, vars: TableState<VarType>, funcs: TableState<FuncType>) returns (status: int)
    requires node.Root? && WellFormed(node)
    ensures status == SaSpec(node, vars, funcs)
    decreases node, 1
  {
    var varTable := new Table<VarType>.Copy(vars);
    var funcTable := new Table<FuncType>.Copy(funcs);
    varTable.NewEnv();
    funcTable.NewEnv();
    var items := node.rootItems;
    var i := 0;
    while i < |items|
      invariant i <= |items| && |varTable.scopes| > 0 && |funcTable.scopes| > 0
      invariant SaSpec(node, vars, funcs) == RootWalk(node, i, varTable.State(), funcTable.State())
    {
      var ok := RootItem(node, i, varTable, funcTable);
      if !ok {
        return -1;
      }
      i := i + 1;
    }
    varTable.QuitEnv();
    funcTable.QuitEnv();
    return 0;
  }

  /**
   * One item of the root loop: a declaration adds its variables, a function
   * definition adds the function and its parameters and analyses its body,
   * other items are skipped. False when the loop returns -1 at this item.
   */
  method RootItem(node: Node, i: nat, varTable: Table<VarType>, funcTable: Table<FuncType>) returns (ok: bool)
    requires node.Root? && WellFormed(node) && i < |node.rootItems|
    requires |varTable.scopes| > 0 && |funcTable.scopes| > 0
    modifies varTable, funcTable
    ensures |varTable.scopes| > 0 && |funcTable.scopes| > 0
    ensures !ok ==> RootWalk(node, i, old(varTable.State()), old(funcTable.State())) == -1
    ensures ok ==> RootWalk(node, i, old(varTable.State()), old(funcTable.State()))
                   == RootWalk(node, i + 1, varTable.State(), funcTable.State())
    decreases node, 0
  {
    var item := node.rootItems[i];
    ok := true;
    if item.VarDecl? {
      assert WellFormed(item);
      ok := DeclareVars(varTable, funcTable.State(), item.decls);
    } else if item.FuncDef? {
      assert WellFormed(item);
      DefineFunction(varTable, funcTable, item);
      var s := Sa(item.blockNode, varTable.State(), funcTable.State());
      ok := s == 0;
    }
  }

  /** The block case of `sa`, corrected: a scope for the block, its items in order, and a return once the scope is left. */
  method SaBlock(node: Node, vars: TableState<VarType>, funcs: TableState<FuncType>) returns (status: int)
    requires node.Block? && WellFormed(node) && |vars.scopes| > 0 && |funcs.scopes| > 0
    ensures status == SaSpec(node, vars, funcs)
  {
    var varTable := new Table<VarType>.Copy(vars);
    varTable.NewEnv();
    var items := node.blockItems;
    var i := 0;
    while i < |items|
      invariant i <= |items| && |varTable.scopes| > 0
      invariant SaSpec(node, vars, funcs) == BlockWalk(items, i, varTable.State(), funcs)
    {
      var ok := BlockItem(items, i, varTable, funcs);
      if !ok {
        return -1;
      }
      i := i + 1;
    }
    varTable.QuitEnv();
    return 0;
  }

  /** One item of the block loop: a declaration fills the block's scope, any other item goes to `type_check`. */
  method BlockItem(items: seq<Node>, i: nat, varTable: Table<VarType>, funcs: TableState<FuncType>) returns (ok: bool)
    requires BlockItemsOk(items) && i < |items|
    requires |varTable.scopes| > 0 && |funcs.scopes| > 0
    modifies varTable
    ensures |varTable.scopes| > 0
    ensures !ok ==> BlockWalk(items, i, old(varTable.State()), funcs) == -1
    ensures ok ==> BlockWalk(items, i, old(varTable.State()), funcs) == BlockWalk(items, i + 1, varTable.State(), funcs)
  {
    var item := items[i];
    if item.VarDecl? {
      ok := DeclareVars(varTable, funcs, item.decls);
    } else {
      ok := TypeCheck(item, varTable.State(), funcs).base != FAIL;
    }
  }

  /** `semantic_analysis`: `sa` on the root with two fresh tables. */
  method SemanticAnalysis(root: Node) returns (status: int)
    requires root.Root? && WellFormed(root)
    ensures status == SaSpec(root, TableState([], ""), TableState([], ""))
    ensures status == 0 || status == -1
  {
    var varTable := new Table<VarType>();
    var funcTable := new Table<FuncType>();
    status := Sa(root, varTable.State(), funcTable.State());
  }

  /** Two pairs of tables that `type_check` and `sa` cannot tell apart. */
  ghost predicate Agree(v1: TableState<VarType>, v2: TableState<VarType>, f1: TableState<FuncType>, f2: TableState<FuncType>)
  {
    SameInnermost(v1, v2) && SameInnermost(f1, f2) && f1.curFuncName == f2.curFuncName
  }

  lemma {:induction false} DeclWalkInnermost(decls: seq<Declarator>, k: nat, v1: TableState<VarType>, v2: TableState<VarType>,
                                            f1: TableState<FuncType>, f2: TableState<FuncType>)
    requires k <= |decls| && DeclsOk(decls) && Agree(v1, v2, f1, f2)
    ensures DeclWalk(decls, k, v1, f1).Some? <==> DeclWalk(decls, k, v2, f2).Some?
    ensures DeclWalk(decls, k, v1, f1).Some? ==> SameInnermost(DeclWalk(decls, k, v1, f1).value, DeclWalk(decls, k, v2, f2).value)
    decreases |decls| - k
  {
    if k < |decls| {
      var d := decls[k];
      SameInnermostSteps(v1, v2, d.name, d.ty);
      var w1 := WithEntry(v1, d.name, d.ty);
      var w2 := WithEntry(v2, d.name, d.ty);
      if d.init.Some? && d.init.value.AssignStmt? {
        TypeCheckInnermost(d.init.value, w1, w2, f1, f2);
      }
      DeclWalkInnermost(decls, k + 1, w1, w2, f1, f2);
    }
  }

  lemma {:induction false} BindParamsInnermost(v1: TableState<VarType>, v2: TableState<VarType>,
                                              names: seq<string>, types: seq<VarType>, k: nat)
    requires SameInnermost(v1, v2) && k <= |names| <= |types|
    ensures SameInnermost(BindParams(v1, names, types, k), BindParams(v2, names, types, k))
    decreases |names| - k
  {
    if k < |names| {
      SameInnermostSteps(v1, v2, names[k], types[k]);
      BindParamsInnermost(WithEntry(v1, names[k], types[k]), WithEntry(v2, names[k], types[k]), names, types, k + 1);
    }
  }

  /**
   * `sa` reads only the innermost scopes and the current function name of
   * the tables it is given; on a root it reads nothing of them but that
   * name, since it opens fresh scopes first.
   */
  lemma {:induction false} SaSpecInnermost(n: Node, v1: TableState<VarType>, v2: TableState<VarType>,
                                          f1: TableState<FuncType>, f2: TableState<FuncType>)
    requires WellFormed(n)
    requires Agree(v1, v2, f1, f2) || (n.Root? && f1.curFuncName == f2.curFuncName)
    ensures SaSpec(n, v1, f1) == SaSpec(n, v2, f2)
    decreases n, 1, 0
  {
    if n.Root? {
      RootWalkInnermost(n, 0, Pushed(v1), Pushed(v2), Pushed(f1), Pushed(f2));
    } else if n.Block? {
      BlockWalkInnermost(n.blockItems, 0, Pushed(v1), Pushed(v2), f1, f2);
    } else if n.IfStmt? {
      TypeCheckInnermost(n.conditionExp, v1, v2, f1, f2);
      SaSpecInnermost(n.trueStmt, v1, v2, f1, f2);
      if n.elseStmt.Some? { SaSpecInnermost(n.elseStmt.value, v1, v2, f1, f2); }
    } else if n.WhileStmt? {
      TypeCheckInnermost(n.conditionExp, v1, v2, f1, f2);
      SaSpecInnermost(n.trueStmt, v1, v2, f1, f2);
    } else if !(n.VarDecl? || n.FuncDef? || n.BreakStmt? || n.ContinueStmt?) {
      TypeCheckInnermost(n, v1, v2, f1, f2);
    }
  }

  lemma {:induction false} RootWalkInnermost(n: Node, k: nat, v1: TableState<VarType>, v2: TableState<VarType>,
                                            f1: TableState<FuncType>, f2: TableState<FuncType>)
    requires n.Root? && WellFormed(n) && k <= |n.rootItems| && Agree(v1, v2, f1, f2)
    ensures RootWalk(n, k, v1, f1) == RootWalk(n, k, v2, f2)
    decreases n, 0, |n.rootItems| - k
  {
    if k < |n.rootItems| {
      var item := n.rootItems[k];
      if item.VarDecl? {
        assert WellFormed(item);
        DeclWalkInnermost(item.decls, 0, v1, v2, f1, f2);
        if DeclWalk(item.decls, 0, v1, f1).Some? {
          RootWalkInnermost(n, k + 1, DeclWalk(item.decls, 0, v1, f1).value, DeclWalk(item.decls, 0, v2, f2).value, f1, f2);
        }
      } else if item.FuncDef? {
        assert WellFormed(item);
        var ft := item.fType;
        BindParamsInnermost(v1, v2, item.varNames, ft.inputType, 0);
        SameInnermostSteps(f1, f2, item.funcName, ft);
        var w1 := BindParams(v1, item.varNames, ft.inputType, 0);
        var w2 := BindParams(v2, item.varNames, ft.inputType, 0);
        var g1 := WithEntry(f1, item.funcName, ft).(curFuncName := item.funcName);
        var g2 := WithEntry(f2, item.funcName, ft).(curFuncName := item.funcName);
        SaSpecInnermost(item.blockNode, w1, w2, g1, g2);
        RootWalkInnermost(n, k + 1, w1, w2, g1, g2);
      } else {
        RootWalkInnermost(n, k + 1, v1, v2, f1, f2);
      }
    }
  }

  lemma {:induction false} BlockWalkInnermost(items: seq<Node>, k: nat, v1: TableState<VarType>, v2: TableState<VarType>,
                                             f1: TableState<FuncType>, f2: TableState<FuncType>)
    requires BlockItemsOk(items) && k <= |items| && Agree(v1, v2, f1, f2)
    ensures BlockWalk(items, k, v1, f1) == BlockWalk(items, k, v2, f2)
    decreases |items| - k
  {
    if k < |items| {
      var item := items[k];
      if item.VarDecl? {
        DeclWalkInnermost(item.decls, 0, v1, v2, f1, f2);
        if DeclWalk(item.decls, 0, v1, f1).Some? {
          BlockWalkInnermost(items, k + 1, DeclWalk(item.decls, 0, v1, f1).value, DeclWalk(item.decls, 0, v2, f2).value, f1, f2);
        }
      } else {
        TypeCheckInnermost(item, v1, v2, f1, f2);
        BlockWalkInnermost(items, k + 1, v1, v2, f1, f2);
      }
    }
  }

  /**
   * The `if` and `while` cases as written: the condition test is followed
   * by an empty statement, so the `return -1` under it is taken whatever
   * the condition's type.
   */
  function CondStmtAsWritten(n: Node, vars: TableState<VarType>, funcs: TableState<FuncType>): (r: int)
    requires (n.IfStmt? || n.WhileStmt?) && Checkable(n.conditionExp) && |vars.scopes| > 0 && |funcs.scopes| > 0
    ensures r == -1
  {
    var ct := TypeCheck(n.conditionExp, vars, funcs);
    if ct.base != INT || ct.dimension != 0 then -1 else -1
  }

  /**
   * `if (1) break;` and `while (1) continue;`: rejected as written, accepted
   * once the condition test guards the return.
   */
  lemma StraySemicolonExample()
    ensures var t: TableState<VarType> := TableState([map[]], "");
      var f: TableState<FuncType> := TableState([map[]], "");
      && CondStmtAsWritten(IfStmt(Number(1), BreakStmt, None), t, f) == -1
      && SaSpec(IfStmt(Number(1), BreakStmt, None), t, f) == 0
      && CondStmtAsWritten(WhileStmt(Number(1), ContinueStmt), t, f) == -1
      && SaSpec(WhileStmt(Number(1), ContinueStmt), t, f) == 0
  {
  }

  /**
   * `sa` on a block as written, with at most `fuel` nested calls; `None`
   * when the fuel is used up. The block case has no `return` after leaving
   * its scope, so control reaches the inner-block case, which opens a scope
   * and calls `sa` on the same block again.
   */
  function SaBlockAsWritten(items: seq<Node>, vars: TableState<VarType>, funcs: TableState<FuncType>, fuel: nat)
    : (r: Option<int>)
    requires BlockItemsOk(items) && |vars.scopes| > 0 && |funcs.scopes| > 0
    decreases fuel
  {
    if fuel == 0 then None
    else if BlockWalk(items, 0, Pushed(vars), funcs) != 0 then Some(-1)
    else
      match SaBlockAsWritten(items, Pushed(vars), funcs, fuel - 1)
      case None => None
      case Some(s) => Some(if s != 0 then -1 else 0)
  }

  /**
   * As written, a block whose items all pass never finishes: however many
   * nested calls are allowed, the walk is still re-entering the same block.
   */
  lemma {:induction false} BlockAsWrittenDiverges(items: seq<Node>, vars: TableState<VarType>, funcs: TableState<FuncType>,
                                                 fuel: nat)
    requires BlockItemsOk(items) && |vars.scopes| > 0 && |funcs.scopes| > 0
    requires BlockWalk(items, 0, Pushed(vars), funcs) == 0
    ensures SaBlockAsWritten(items, vars, funcs, fuel) == None
    decreases fuel
  {
    if fuel > 0 {
      BlockWalkInnermost(items, 0, Pushed(Pushed(vars)), Pushed(vars), funcs, funcs);
      BlockAsWrittenDiverges(items, Pushed(vars), funcs, fuel - 1);
    }
  }

  /**
   * The corrected block case answers where the as-written one diverges: a
   * block whose items pass is accepted, while as written no amount of fuel
   * gives an answer; a block with a failing item is rejected by both.
   */
  lemma CorrectedBlockAnswers(items: seq<Node>, vars: TableState<VarType>, funcs: TableState<FuncType>, fuel: nat)
    requires BlockItemsOk(items) && |vars.scopes| > 0 && |funcs.scopes| > 0
    ensures WellFormed(Block(items))
    ensures BlockWalk(items, 0, Pushed(vars), funcs) == 0 ==>
      SaSpec(Block(items), vars, funcs) == 0 && SaBlockAsWritten(items, vars, funcs, fuel) == None
    ensures BlockWalk(items, 0, Pushed(vars), funcs) != 0 ==>
      SaSpec(Block(items), vars, funcs) == -1 && (fuel > 0 ==> SaBlockAsWritten(items, vars, funcs, fuel) == Some(-1))
  {
    if BlockWalk(items, 0, Pushed(vars), funcs) == 0 {
      BlockAsWrittenDiverges(items, vars, funcs, fuel);
    }
  }
}
