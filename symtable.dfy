/**
 * The scoped symbol table of semantic analysis: a stack of scopes, each a
 * map from names to entries, innermost last, together with the name of the
 * function being analysed. `Table` is the mutable object; the functions on
 * `TableState` describe what each of its operations does to its contents.
 */
module SymTable {
  import opened Wrappers

  /** The contents of a table: its scope stack and its current function name. */
  datatype TableState<T> = TableState(scopes: seq<map<string, T>>, curFuncName: string)

  /** `new_env`: a new empty scope on top of the stack. */
  function Pushed<T>(s: TableState<T>): (r: TableState<T>)
    ensures |r.scopes| == |s.scopes| + 1 && r.scopes[|s.scopes|] == map[]
    ensures r.scopes[..|s.scopes|] == s.scopes && r.curFuncName == s.curFuncName
  {
    s.(scopes := s.scopes + [map[]])
  }

  /** `quit_env`: the innermost scope is dropped. */
  function Popped<T>(s: TableState<T>): (r: TableState<T>)
    requires |s.scopes| > 0
    ensures |r.scopes| == |s.scopes| - 1 && r.curFuncName == s.curFuncName
    ensures r.scopes == s.scopes[..|s.scopes| - 1]
  {
    s.(scopes := s.scopes[..|s.scopes| - 1])
  }

  /**
   * `add_one_entry`: the innermost scope binds `name` to `t`, replacing any
   * earlier binding there; the outer scopes are untouched.
   */
  function WithEntry<T>(s: TableState<T>, name: string, t: T): (r: TableState<T>)
    requires |s.scopes| > 0
    ensures |r.scopes| == |s.scopes| && r.curFuncName == s.curFuncName
    ensures r.scopes[..|s.scopes| - 1] == s.scopes[..|s.scopes| - 1]
    ensures r.scopes[|s.scopes| - 1] == s.scopes[|s.scopes| - 1][name := t]
  {
    var n := |s.scopes|;
    s.(scopes := s.scopes[..n - 1] + [s.scopes[n - 1][name := t]])
  }

  /**
   * `lookup`: only the innermost scope is consulted; a name it does not
   * bind is not found (the source answers `FAIL`), even if an outer scope
   * binds it.
   */
  function LookupIn<T>(s: TableState<T>, name: string): (r: Option<T>)
    requires |s.scopes| > 0
    ensures r.Some? <==> name in s.scopes[|s.scopes| - 1]
    ensures r.Some? ==> r.value == s.scopes[|s.scopes| - 1][name]
  {
    var top := s.scopes[|s.scopes| - 1];
    if name in top then Some(top[name]) else None
  }

  /** `new_env` followed by `quit_env` gives back the table as it was. */
  lemma PopPushed<T>(s: TableState<T>)
    ensures Popped(Pushed(s)) == s
  {
    assert Pushed(s).scopes[..|s.scopes|] == s.scopes;
  }

  /** A lookup right after `add_one_entry(name, t)` finds `t`; other names are as before. */
  lemma LookupWithEntry<T>(s: TableState<T>, name: string, t: T, other: string)
    requires |s.scopes| > 0
    ensures LookupIn(WithEntry(s, name, t), name) == Some(t)
    ensures other != name ==> LookupIn(WithEntry(s, name, t), other) == LookupIn(s, other)
  {
  }

  /** Nothing is found in a scope just opened, whatever the outer scopes bind. */
  lemma LookupPushed<T>(s: TableState<T>, name: string)
    ensures LookupIn(Pushed(s), name) == None
  {
  }

  /**
   * Leaving a scope forgets what was added in it: an entry added and then
   * the scope quit leaves the outer scopes as they were.
   */
  lemma QuitForgetsEntries<T>(s: TableState<T>, name: string, t: T)
    ensures Popped(WithEntry(Pushed(s), name, t)) == s
  {
    PopPushed(s);
    assert WithEntry(Pushed(s), name, t).scopes[..|s.scopes|] == s.scopes;
  }

  /** The innermost scope. */
  function Innermost<T>(s: TableState<T>): map<string, T>
    requires |s.scopes| > 0
  {
    s.scopes[|s.scopes| - 1]
  }

  /** Two tables whose innermost scopes agree: for `lookup` they are the same. */
  ghost predicate SameInnermost<T>(a: TableState<T>, b: TableState<T>)
  {
    |a.scopes| > 0 && |b.scopes| > 0 && a.scopes[|a.scopes| - 1] == b.scopes[|b.scopes| - 1]
  }

  /** Tables with the same innermost scope answer every lookup alike, and stay so under additions. */
  lemma SameInnermostSteps<T>(a: TableState<T>, b: TableState<T>, name: string, t: T)
    requires SameInnermost(a, b)
    ensures LookupIn(a, name) == LookupIn(b, name)
    ensures SameInnermost(WithEntry(a, name, t), WithEntry(b, name, t))
    ensures SameInnermost(Pushed(a), Pushed(b))
  {
  }

  /** `Table<T>`: the object `sa` copies, pushes, pops and writes. */
  class Table<T> {
    var scopes: seq<map<string, T>>
    var curFuncName: string

    /** The table's contents as a value. */
    function State(): TableState<T>
      reads this
    {
      TableState(scopes, curFuncName)
    }

    /** `Table()`: no scope yet, and an empty current function name. */
    constructor ()
      ensures State() == TableState([], "")
    {
      scopes := [];
      curFuncName := "";
    }

    /** Passing a table by value: a new table with the same contents. */
    constructor Copy(s: TableState<T>)
      ensures State() == s
    {
      scopes := s.scopes;
      curFuncName := s.curFuncName;
    }

    /** `set_func_name`: records the current function and leaves the scopes alone. */
    method SetFuncName(x: string)
      modifies this
      ensures curFuncName == x && scopes == old(scopes)
      ensures GetCurFuncName() == x
    {
      curFuncName := x;
    }

    /** `get_cur_func_name`: the name the last `set_func_name` recorded. */
    function GetCurFuncName(): string
      reads this
    {
      curFuncName
    }

    /** `add_one_entry`: needs a scope to write into, and always reports 0. */
    method AddOneEntry(name: string, t: T) returns (status: int)
      requires |scopes| > 0
      modifies this
      ensures status == 0
      ensures State() == WithEntry(old(State()), name, t)
    {
      var n := |scopes|;
      scopes := scopes[..n - 1] + [scopes[n - 1][name := t]];
      status := 0;
    }

    /** `new_env`. */
    method NewEnv()
      modifies this
      ensures State() == Pushed(old(State()))
    {
      scopes := scopes + [map[]];
    }

    /** `quit_env`: needs a scope to pop. */
    method QuitEnv()
      requires |scopes| > 0
      modifies this
      ensures State() == Popped(old(State()))
    {
      scopes := scopes[..|scopes| - 1];
    }

    /** `lookup`: needs a scope, and reads the innermost one only. */
    function Lookup(name: string): (r: Option<T>)
      reads this
      requires |scopes| > 0
      ensures r.Some? <==> name in scopes[|scopes| - 1]
      ensures r == LookupIn(State(), name)
    {
      LookupIn(State(), name)
    }
  }
}
