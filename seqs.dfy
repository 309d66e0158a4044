/**
 * Sequences of ids. The intrusive lists of the IR (a value's user list,
 * a block's instruction list) are modelled as sequences of stable ids.
 */
module Seqs {

  /** No id occurs twice. */
  ghost predicate NoDup(s: seq<int>)
  {
    forall i, j :: 0 <= i < j < |s| ==> s[i] != s[j]
  }

  /** Unlink `x` from a list, keeping the order of the other elements. */
  function Remove(s: seq<int>, x: int): (r: seq<int>)
    ensures forall y :: y in r <==> y in s && y != x
    ensures |r| <= |s|
    ensures x !in s ==> r == s
    ensures NoDup(s) ==> NoDup(r)
    ensures NoDup(s) && x in s ==> |r| == |s| - 1
  {
    if s == [] then []
    else if s[0] == x then Remove(s[1..], x)
    else
      NoDupTail(s);
      [s[0]] + Remove(s[1..], x)
  }

  /** The tail of a duplicate-free list is duplicate-free and lacks the head. */
  lemma NoDupTail(s: seq<int>)
    requires |s| > 0
    ensures NoDup(s) ==> NoDup(s[1..]) && s[0] !in s[1..]
  {
    if NoDup(s) {
      var t := s[1..];
      forall i, j | 0 <= i < j < |t| ensures t[i] != t[j] { assert t[i] == s[i + 1] && t[j] == s[j + 1]; }
      forall j | 0 <= j < |t| ensures t[j] != s[0] { assert t[j] == s[j + 1]; }
    }
  }

  /** Splice `x` in at position `k`: before the element now at `k`, or at the end. */
  function InsertAt(s: seq<int>, k: nat, x: int): (r: seq<int>)
    requires k <= |s|
  {
    s[..k] + [x] + s[k..]
  }

  /** The position of `x` in `s`. */
  function IndexOf(s: seq<int>, x: int): (k: nat)
    requires x in s
    ensures k < |s| && s[k] == x
    ensures forall j :: 0 <= j < k ==> s[j] != x
  {
    if s[0] == x then 0 else 1 + IndexOf(s[1..], x)
  }

  /** Putting a new id in front of a duplicate-free list keeps it duplicate-free. */
  lemma NoDupCons(x: int, s: seq<int>)
    requires NoDup(s) && x !in s
    ensures NoDup([x] + s)
  {
    var r := [x] + s;
    forall i, j | 0 <= i < j < |r| ensures r[i] != r[j] {
      assert r[j] == s[j - 1];
      if i > 0 { assert r[i] == s[i - 1]; }
    }
  }

  /** Appending a new id to a duplicate-free list keeps it duplicate-free. */
  lemma NoDupSnoc(s: seq<int>, x: int)
    requires NoDup(s) && x !in s
    ensures NoDup(s + [x])
  {
    var r := s + [x];
    forall i, j | 0 <= i < j < |r| ensures r[i] != r[j] {
      assert r[i] == s[i];
      if j < |s| { assert r[j] == s[j]; }
    }
  }

  /** Removing the head of a duplicate-free list leaves its tail. */
  lemma {:induction false} RemoveHead(s: seq<int>)
    requires |s| > 0 && NoDup(s)
    ensures Remove(s, s[0]) == s[1..]
  {
    assert s[0] !in s[1..] by {
      forall j | 0 <= j < |s[1..]| ensures s[1..][j] != s[0] {
        assert s[1..][j] == s[j + 1];
      }
    }
  }

  /**
   * Splicing a new element in keeps the other elements in their order: the
   * elements before `k` are still before it, those after it follow it, and
   * the new one sits at `k`.
   */
  lemma InsertAtShape(s: seq<int>, k: nat, x: int)
    requires k <= |s|
    ensures |InsertAt(s, k, x)| == |s| + 1
    ensures InsertAt(s, k, x)[k] == x
    ensures forall j :: 0 <= j < k ==> InsertAt(s, k, x)[j] == s[j]
    ensures forall j :: k <= j < |s| ==> InsertAt(s, k, x)[j + 1] == s[j]
  {
  }

  /** Splicing a fresh element into a duplicate-free list keeps it duplicate-free. */
  lemma InsertAtNoDup(s: seq<int>, k: nat, x: int)
    requires k <= |s| && NoDup(s) && x !in s
    ensures NoDup(InsertAt(s, k, x))
    ensures forall y :: y in InsertAt(s, k, x) <==> y in s || y == x
  {
    var r := InsertAt(s, k, x);
    forall i, j | 0 <= i < j < |r| ensures r[i] != r[j] {
      if i < k && j == k { assert r[i] == s[i]; }
      else if i == k { assert r[j] == s[j - 1]; }
      else if i < k && j < k { assert r[i] == s[i] && r[j] == s[j]; }
      else if i < k { assert r[i] == s[i] && r[j] == s[j - 1]; }
      else { assert r[i] == s[i - 1] && r[j] == s[j - 1]; }
    }
    forall y ensures y in r <==> y in s || y == x {
      assert r == s[..k] + [x] + s[k..];
      assert s == s[..k] + s[k..];
    }
  }

  /** Unlinking what was just spliced in gives back the original list. */
  lemma {:induction false} RemoveInsertAt(s: seq<int>, k: nat, x: int)
    requires k <= |s| && x !in s
    ensures Remove(InsertAt(s, k, x), x) == s
  {
    if k == 0 {
      assert InsertAt(s, 0, x) == [x] + s;
      assert ([x] + s)[1..] == s;
    } else {
      var r := InsertAt(s, k, x);
      assert r[0] == s[0] && r[1..] == InsertAt(s[1..], k - 1, x);
      RemoveInsertAt(s[1..], k - 1, x);
      assert s == [s[0]] + s[1..];
    }
  }

  /** The set of ids held by a list. */
  ghost function Elems(s: seq<int>): (r: set<int>)
    ensures forall y :: y in r <==> y in s
  {
    if s == [] then {} else {s[0]} + Elems(s[1..])
  }

  /** A duplicate-free list has as many elements as the set of its elements. */
  lemma {:induction false} NoDupCard(s: seq<int>)
    requires NoDup(s)
    ensures |Elems(s)| == |s|
  {
    if s != [] {
      NoDupTail(s);
      NoDupCard(s[1..]);
      assert s[0] !in Elems(s[1..]);
    }
  }

  /** Updating a map twice at the same key keeps the second value only. */
  lemma UpdateTwice<K, V>(m: map<K, V>, k: K, v1: V, v2: V)
    ensures m[k := v1][k := v2] == m[k := v2]
  {
  }
}
