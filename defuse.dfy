/**
 * The def-use graph as values. Every use records the value it targets (or
 * none), and every value keeps the list of uses that target it. The class
 * `IR.Context` stores these two maps in fields; this module gives the
 * transitions a single use makes and proves that they keep the two views
 * in agreement.
 */
module DefUse {
  import opened Wrappers
  import opened Seqs

  type UseId = int
  type ValueId = int

  /**
   * The two views agree: a use occurs in a value's user list exactly when it
   * targets that value, and no user list holds a use twice.
   */
  ghost predicate Consistent(target: map<UseId, Option<ValueId>>, users: map<ValueId, seq<UseId>>)
  {
    && (forall v | v in users :: NoDup(users[v]))
    && (forall v, u | v in users && u in users[v] :: u in target && target[u] == Some(v))
    && (forall u | u in target && target[u].Some? :: target[u].value in users && u in users[target[u].value])
  }

  /** The uses that target `v`, read off the use side. */
  ghost function UsesOf(target: map<UseId, Option<ValueId>>, v: ValueId): set<UseId>
  {
    set u | u in target && target[u] == Some(v)
  }

  /**
   * The user lists after `Use::set(V)`: the use leaves the list of the value
   * it targeted (`removeFromList`), then, if `V` is non-null, joins the front
   * of `V`'s list (`addToList` puts a new use before the current head).
   */
  function SetUsers(target: map<UseId, Option<ValueId>>, users: map<ValueId, seq<UseId>>,
                    u: UseId, v: Option<ValueId>): map<ValueId, seq<UseId>>
    requires u in target
  {
    var detached :=
      if target[u].Some? && target[u].value in users
      then users[target[u].value := Remove(users[target[u].value], u)]
      else users;
    if v.Some? && v.value in detached then detached[v.value := [u] + detached[v.value]] else detached
  }

  /**
   * `Use::set` keeps the graph consistent. Its effect on every user list is
   * exact: the use is taken out of every list and put in front of the new
   * target's; in particular the old target loses one use and nothing else
   * changes (the source does this for `set(null)` and for a retarget alike).
   */
  lemma SetUseConsistent(target: map<UseId, Option<ValueId>>, users: map<ValueId, seq<UseId>>,
                         u: UseId, v: Option<ValueId>)
    requires Consistent(target, users)
    requires u in target && (v.Some? ==> v.value in users)
    ensures Consistent(target[u := v], SetUsers(target, users, u, v))
    ensures SetUsers(target, users, u, v).Keys == users.Keys
    ensures forall w | w in users ::
      SetUsers(target, users, u, v)[w] == if v == Some(w) then [u] + Remove(users[w], u) else Remove(users[w], u)
    ensures forall w | w in users && target[u] == Some(w) && v != Some(w) ::
      |SetUsers(target, users, u, v)[w]| == |users[w]| - 1
    ensures forall w | w in users && target[u] != Some(w) && v == Some(w) ::
      |SetUsers(target, users, u, v)[w]| == |users[w]| + 1
  {
    SetUsersShape(target, users, u, v);
    SetUsersAgree(target, users, u, v);
    var r := SetUsers(target, users, u, v);
    forall w | w in users && target[u] == Some(w) && v != Some(w) ensures |r[w]| == |users[w]| - 1 {
      assert NoDup(users[w]) && u in users[w];
    }
    forall w | w in users && target[u] != Some(w) && v == Some(w) ensures |r[w]| == |users[w]| + 1 {
      assert u !in users[w];
    }
  }

  /** What `Use::set` does to each user list. */
  lemma SetUsersShape(target: map<UseId, Option<ValueId>>, users: map<ValueId, seq<UseId>>,
                      u: UseId, v: Option<ValueId>)
    requires Consistent(target, users)
    requires u in target && (v.Some? ==> v.value in users)
    ensures SetUsers(target, users, u, v).Keys == users.Keys
    ensures forall w | w in users ::
      SetUsers(target, users, u, v)[w] == if v == Some(w) then [u] + Remove(users[w], u) else Remove(users[w], u)
  {
    var r := SetUsers(target, users, u, v);
    forall w | w in users
      ensures r[w] == if v == Some(w) then [u] + Remove(users[w], u) else Remove(users[w], u)
    {
      if target[u] != Some(w) {
        assert u !in users[w];
      }
    }
  }

  /** After `Use::set` the two views of the graph agree again. */
  lemma SetUsersAgree(target: map<UseId, Option<ValueId>>, users: map<ValueId, seq<UseId>>,
                      u: UseId, v: Option<ValueId>)
    requires Consistent(target, users)
    requires u in target && (v.Some? ==> v.value in users)
    requires SetUsers(target, users, u, v).Keys == users.Keys
    requires forall w | w in users ::
      SetUsers(target, users, u, v)[w] == if v == Some(w) then [u] + Remove(users[w], u) else Remove(users[w], u)
    ensures Consistent(target[u := v], SetUsers(target, users, u, v))
  {
    var r := SetUsers(target, users, u, v);
    var t := target[u := v];
    forall w | w in users ensures NoDup(r[w]) {
      if v == Some(w) { NoDupCons(u, Remove(users[w], u)); }
    }
    forall w, x | w in r && x in r[w] ensures x in t && t[x] == Some(w) {
      if x != u { assert x in users[w]; }
    }
    forall x | x in t && t[x].Some? ensures t[x].value in r && x in r[t[x].value] {
      if x != u {
        var w := target[x].value;
        assert x in users[w];
      }
    }
  }

  /**
   * The user lists after move-constructing the use `dest` from `src`: the
   * single membership of `src` in its target's list passes to `dest`
   * (`removeUse(Other)` then `addUse(*this)`).
   */
  function MoveUsers(target: map<UseId, Option<ValueId>>, users: map<ValueId, seq<UseId>>,
                     src: UseId, dest: UseId): map<ValueId, seq<UseId>>
    requires src in target && target[src].Some? && target[src].value in users
  {
    var v := target[src].value;
    users[v := [dest] + Remove(users[v], src)]
  }

  /**
   * A move keeps the graph consistent: afterwards `src` targets nothing,
   * `dest` targets what `src` did, the target's use count is unchanged, and
   * every other list is untouched.
   */
  lemma {:induction false} MoveUseConsistent(target: map<UseId, Option<ValueId>>, users: map<ValueId, seq<UseId>>,
                                            src: UseId, dest: UseId)
    requires Consistent(target, users)
    requires src in target && target[src].Some? && dest !in target
    ensures target[src].value in users
    ensures Consistent(target[src := None][dest := target[src]], MoveUsers(target, users, src, dest))
    ensures MoveUsers(target, users, src, dest).Keys == users.Keys
    ensures var v := target[src].value;
      |MoveUsers(target, users, src, dest)[v]| == |users[v]|
      && src !in MoveUsers(target, users, src, dest)[v] && dest in MoveUsers(target, users, src, dest)[v]
    ensures forall w | w in users && Some(w) != target[src] :: MoveUsers(target, users, src, dest)[w] == users[w]
  {
    var v := target[src].value;
    var r := MoveUsers(target, users, src, dest);
    var t := target[src := None][dest := target[src]];
    assert dest !in users[v];
    NoDupCons(dest, Remove(users[v], src));
    forall w, x | w in r && x in r[w] ensures x in t && t[x] == Some(w) {
      if x != dest { assert x in users[w]; }
    }
    forall x | x in t && t[x].Some? ensures t[x].value in r && x in r[t[x].value] {
      if x != dest {
        assert x != src;
        assert x in users[target[x].value];
      }
    }
  }

  /** A new value with an empty user list keeps the graph consistent. */
  lemma ConsistentAddValue(target: map<UseId, Option<ValueId>>, users: map<ValueId, seq<UseId>>, v: ValueId)
    requires Consistent(target, users) && v !in users
    ensures Consistent(target, users[v := []])
  {
    forall u | u in target && target[u].Some? ensures target[u].value != v {
      assert target[u].value in users;
    }
  }

  /** A new use targeting nothing keeps the graph consistent. */
  lemma ConsistentAddUse(target: map<UseId, Option<ValueId>>, users: map<ValueId, seq<UseId>>, u: UseId)
    requires Consistent(target, users) && u !in target
    ensures Consistent(target[u := None], users)
  {
    forall v, x | v in users && x in users[v] ensures x != u {
      assert x in target;
    }
  }

  /**
   * A value's use count, read off its user list, equals the number of uses
   * that target it: `getNumUses` counts exactly the value's uses.
   */
  lemma NumUsesIsTargetCount(target: map<UseId, Option<ValueId>>, users: map<ValueId, seq<UseId>>, v: ValueId)
    requires Consistent(target, users) && v in users
    ensures |users[v]| == |UsesOf(target, v)|
  {
    forall x ensures x in Elems(users[v]) <==> x in UsesOf(target, v) {
      if x in users[v] { assert x in target && target[x] == Some(v); }
    }
    assert Elems(users[v]) == UsesOf(target, v);
    NoDupCard(users[v]);
  }

  /** `Use::set` never adds or drops a user list. */
  lemma SetUsersKeys(target: map<UseId, Option<ValueId>>, users: map<ValueId, seq<UseId>>, u: UseId, v: Option<ValueId>)
    requires u in target
    ensures SetUsers(target, users, u, v).Keys == users.Keys
  {
  }

  /** A fresh use targeting `op` and owned by `i`, on the def-use graph. */
  lemma ConsistentNewOperand(target: map<UseId, Option<ValueId>>, users: map<ValueId, seq<UseId>>,
                             u: UseId, op: Option<ValueId>)
    requires Consistent(target, users) && u !in target && (op.Some? ==> op.value in users)
    ensures Consistent(target[u := op], SetUsers(target[u := None], users, u, op))
    ensures SetUsers(target[u := None], users, u, op).Keys == users.Keys
    ensures forall w | w in users ::
      SetUsers(target[u := None], users, u, op)[w] == if op == Some(w) then [u] + users[w] else users[w]
  {
    ConsistentAddUse(target, users, u);
    SetUseConsistent(target[u := None], users, u, op);
    assert target[u := None][u := op] == target[u := op];
    forall w | w in users ensures u !in users[w] {
      if u in users[w] { assert false; }
    }
  }

  /**
   * Progress of `replaceAllUsesWith` after retargeting the first `k` uses of
   * the snapshot of `v`'s user list: those uses target `w`, every other use
   * keeps its target, `v` still holds the rest of the snapshot, and no other
   * list but `w`'s has changed.
   */
  ghost predicate Retargeted(target0: map<UseId, Option<ValueId>>, users0: map<ValueId, seq<UseId>>,
                             target: map<UseId, Option<ValueId>>, users: map<ValueId, seq<UseId>>,
                             v: ValueId, w: Option<ValueId>, snapshot: seq<UseId>, k: nat)
  {
    && v in users0 && snapshot == users0[v] && k <= |snapshot| && (w.Some? ==> w.value in users0)
    && target.Keys == target0.Keys && users.Keys == users0.Keys
    && (forall u | u in target0 :: target[u] == if u in snapshot[..k] then w else target0[u])
    && (w != Some(v) ==> users[v] == snapshot[k..])
    && (w.Some? && w.value != v ==> |users[w.value]| == |users0[w.value]| + k)
    && (forall x | x in users0 && x != v && Some(x) != w :: users[x] == users0[x])
  }

  /** The use retargeted in step `k` of `replaceAllUsesWith` still targets `v` and is in no other list. */
  lemma RetargetNext(target0: map<UseId, Option<ValueId>>, users0: map<ValueId, seq<UseId>>,
                     target: map<UseId, Option<ValueId>>, users: map<ValueId, seq<UseId>>,
                     v: ValueId, w: Option<ValueId>, snapshot: seq<UseId>, k: nat)
    requires Consistent(target0, users0) && Consistent(target, users)
    requires Retargeted(target0, users0, target, users, v, w, snapshot, k) && k < |snapshot|
    ensures snapshot[k] in target && target[snapshot[k]] == Some(v) && snapshot[k] !in snapshot[..k]
    ensures forall x | x in users && x != v :: snapshot[k] !in users[x]
  {
    var u := snapshot[k];
    assert u in users0[v];
    assert NoDup(snapshot);
    forall j | 0 <= j < k ensures snapshot[..k][j] != u { assert snapshot[..k][j] == snapshot[j]; }
  }

  /** Step `k` of `replaceAllUsesWith` moves exactly one more use of the snapshot to `w`. */
  lemma RetargetStepTargets(target0: map<UseId, Option<ValueId>>, snapshot: seq<UseId>, k: nat,
                            target: map<UseId, Option<ValueId>>, w: Option<ValueId>)
    requires k < |snapshot| && snapshot[k] !in snapshot[..k] && target.Keys == target0.Keys
    requires forall u | u in target0 :: target[u] == if u in snapshot[..k] then w else target0[u]
    ensures forall u | u in target0 :: target[snapshot[k] := w][u] == if u in snapshot[..k + 1] then w else target0[u]
  {
    assert snapshot[..k + 1] == snapshot[..k] + [snapshot[k]];
  }

  /** Step `k` of `replaceAllUsesWith` shortens `v`'s list by its head and lengthens `w`'s by one. */
  lemma RetargetStepLists(target0: map<UseId, Option<ValueId>>, users0: map<ValueId, seq<UseId>>,
                          target: map<UseId, Option<ValueId>>, users: map<ValueId, seq<UseId>>,
                          v: ValueId, w: Option<ValueId>, snapshot: seq<UseId>, k: nat)
    requires Consistent(target0, users0) && Consistent(target, users)
    requires Retargeted(target0, users0, target, users, v, w, snapshot, k) && k < |snapshot|
    ensures var users' := SetUsers(target, users, snapshot[k], w);
      && users'.Keys == users0.Keys
      && (w != Some(v) ==> users'[v] == snapshot[k + 1..])
      && (w.Some? && w.value != v ==> |users'[w.value]| == |users0[w.value]| + k + 1)
      && (forall x | x in users0 && x != v && Some(x) != w :: users'[x] == users0[x])
  {
    var u := snapshot[k];
    RetargetNext(target0, users0, target, users, v, w, snapshot, k);
    SetUseConsistent(target, users, u, w);
    if w != Some(v) {
      assert NoDup(users[v]);
      RemoveHead(snapshot[k..]);
      assert snapshot[k..][0] == u && snapshot[k..][1..] == snapshot[k + 1..];
    }
  }

  /** One retargeting step of `replaceAllUsesWith` makes progress. */
  lemma RetargetStep(target0: map<UseId, Option<ValueId>>, users0: map<ValueId, seq<UseId>>,
                     target: map<UseId, Option<ValueId>>, users: map<ValueId, seq<UseId>>,
                     v: ValueId, w: Option<ValueId>, snapshot: seq<UseId>, k: nat)
    requires Consistent(target0, users0) && Consistent(target, users)
    requires Retargeted(target0, users0, target, users, v, w, snapshot, k) && k < |snapshot|
    ensures snapshot[k] in target && target[snapshot[k]] == Some(v)
    ensures Retargeted(target0, users0, target[snapshot[k] := w], SetUsers(target, users, snapshot[k], w),
                       v, w, snapshot, k + 1)
  {
    RetargetNext(target0, users0, target, users, v, w, snapshot, k);
    RetargetStepTargets(target0, snapshot, k, target, w);
    RetargetStepLists(target0, users0, target, users, v, w, snapshot, k);
  }

  /**
   * Progress of destroying an operand vector after its first `j` uses: those
   * uses target nothing and every other use keeps its target.
   */
  ghost predicate Dropped(target0: map<UseId, Option<ValueId>>, target: map<UseId, Option<ValueId>>,
                          ops: seq<UseId>, j: nat)
  {
    && j <= |ops| && target.Keys == target0.Keys
    && (forall u | u in target0 :: target[u] == if u in ops[..j] then None else target0[u])
  }

  /** Destroying one more operand use makes progress. */
  lemma DropStep(target0: map<UseId, Option<ValueId>>, target: map<UseId, Option<ValueId>>, ops: seq<UseId>, j: nat)
    requires Dropped(target0, target, ops, j) && j < |ops| && ops[j] in target0
    ensures Dropped(target0, target[ops[j] := None], ops, j + 1)
  {
    assert ops[..j + 1] == ops[..j] + [ops[j]];
  }
}
