/**
 * `Array.prototype.sort` with a comparator on a string key, as the engine
 * calls it on dates. The sort is stable, so its result is fixed by its
 * input: it is given here as insertion sort, first as a function on
 * sequences and then as an in-place method on an array proved to agree
 * with it. `LatestIndex` is the independent description of the element a
 * caller finds at the end of the sorted array.
 */
module Sorting {
  import opened Strings

  /** Keys never decrease from left to right. */
  ghost predicate SortedBy<T>(s: seq<T>, key: T -> string)
  {
    forall i, j :: 0 <= i < j < |s| ==> LexLe(key(s[i]), key(s[j]))
  }

  /** Keys strictly increase from left to right (sorted, no two equal keys). */
  ghost predicate StrictlySortedBy<T>(s: seq<T>, key: T -> string)
  {
    forall i, j :: 0 <= i < j < |s| ==> LexLt(key(s[i]), key(s[j]))
  }

  ghost predicate KeysDistinct<T>(s: seq<T>, key: T -> string)
  {
    forall i, j :: 0 <= i < j < |s| ==> key(s[i]) != key(s[j])
  }

  /**
   * Places `x`, which came after every element of `t` in the input, after
   * every element whose key is not greater than its own: ties keep input order.
   */
  function Insert<T>(t: seq<T>, x: T, key: T -> string): (r: seq<T>)
    ensures |r| == |t| + 1
    ensures multiset(r) == multiset(t) + multiset{x}
  {
    if |t| == 0 || LexLe(key(t[|t| - 1]), key(x)) then t + [x]
    else
      assert t == t[..|t| - 1] + [t[|t| - 1]];
      Insert(t[..|t| - 1], x, key) + [t[|t| - 1]]
  }

  /** The stable sort of `s` by `key`. */
  function SortByKey<T>(s: seq<T>, key: T -> string): (r: seq<T>)
    ensures |r| == |s|
    ensures multiset(r) == multiset(s)
  {
    if |s| == 0 then []
    else
      assert s == s[..|s| - 1] + [s[|s| - 1]];
      Insert(SortByKey(s[..|s| - 1], key), s[|s| - 1], key)
  }

  /**
   * The position of the element with the greatest key; among elements that
   * share that key, the one that comes last.
   */
  function LatestIndex<T>(s: seq<T>, key: T -> string): (k: nat)
    requires |s| > 0
    ensures k < |s|
    ensures forall j :: 0 <= j < |s| ==> LexLe(key(s[j]), key(s[k]))
    ensures forall j :: k < j < |s| ==> LexLt(key(s[j]), key(s[k]))
  {
    if |s| == 1 then LexLeReflexive(key(s[0])); 0
    else
      var k' := LatestIndex(s[..|s| - 1], key);
      LexLeIsTotalOrder();
      if LexLe(key(s[k']), key(s[|s| - 1])) then |s| - 1 else k'
  }

  /** The contract of `LatestIndex` leaves no choice: one index meets it. */
  lemma LatestIndexUnique<T>(s: seq<T>, key: T -> string, k: nat)
    requires k < |s|
    requires forall j :: 0 <= j < |s| ==> LexLe(key(s[j]), key(s[k]))
    requires forall j :: k < j < |s| ==> LexLt(key(s[j]), key(s[k]))
    ensures k == LatestIndex(s, key)
  {
    var m := LatestIndex(s, key);
    if k < m {
      LexLeAntisymmetric(key(s[m]), key(s[k]));
    } else if m < k {
      LexLeAntisymmetric(key(s[m]), key(s[k]));
    }
  }

  lemma {:induction false} InsertSorted<T>(t: seq<T>, x: T, key: T -> string)
    requires SortedBy(t, key)
    ensures SortedBy(Insert(t, x, key), key)
  {
    LexLeIsTotalOrder();
    if |t| == 0 || LexLe(key(t[|t| - 1]), key(x)) {
    } else {
      var t' := t[..|t| - 1];
      var last := t[|t| - 1];
      InsertSorted(t', x, key);
      var u := Insert(t', x, key);
      forall i | 0 <= i < |u|
        ensures LexLe(key(u[i]), key(last))
      {
        assert u[i] in multiset(u);
        if u[i] != x {
          assert u[i] in multiset(t');
          var j :| 0 <= j < |t'| && t'[j] == u[i];
        }
      }
    }
  }

  /** The stable sort puts keys in non-decreasing order. */
  lemma {:induction false} SortByKeySorted<T>(s: seq<T>, key: T -> string)
    ensures SortedBy(SortByKey(s, key), key)
  {
    if |s| > 0 {
      SortByKeySorted(s[..|s| - 1], key);
      InsertSorted(SortByKey(s[..|s| - 1], key), s[|s| - 1], key);
    }
  }

  /**
   * After a stable sort the last element is the input's latest element:
   * greatest key, and the later one in input order on a tie.
   */
  lemma {:induction false} SortByKeyLast<T>(s: seq<T>, key: T -> string)
    requires |s| > 0
    ensures SortByKey(s, key)[|s| - 1] == s[LatestIndex(s, key)]
  {
    if |s| > 1 {
      var s' := s[..|s| - 1];
      SortByKeyLast(s', key);
    }
  }

  lemma {:induction false} InsertStrictlySorted<T>(t: seq<T>, x: T, key: T -> string)
    requires StrictlySortedBy(t, key)
    requires forall i :: 0 <= i < |t| ==> key(t[i]) != key(x)
    ensures StrictlySortedBy(Insert(t, x, key), key)
  {
    LexLeIsTotalOrder();
    if |t| == 0 || LexLe(key(t[|t| - 1]), key(x)) {
    } else {
      var t' := t[..|t| - 1];
      var last := t[|t| - 1];
      InsertStrictlySorted(t', x, key);
      var u := Insert(t', x, key);
      forall i | 0 <= i < |u|
        ensures LexLt(key(u[i]), key(last))
      {
        assert u[i] in multiset(u);
        if u[i] != x {
          assert u[i] in multiset(t');
          var j :| 0 <= j < |t'| && t'[j] == u[i];
        }
      }
    }
  }

  /** With no two equal keys, the stable sort puts keys in strictly increasing order. */
  lemma {:induction false} SortByKeyStrictlySorted<T>(s: seq<T>, key: T -> string)
    requires KeysDistinct(s, key)
    ensures StrictlySortedBy(SortByKey(s, key), key)
  {
    if |s| > 0 {
      var s' := s[..|s| - 1];
      var t := SortByKey(s', key);
      SortByKeyStrictlySorted(s', key);
      forall i | 0 <= i < |t|
        ensures key(t[i]) != key(s[|s| - 1])
      {
        assert t[i] in multiset(t);
        assert t[i] in multiset(s');
        var j :| 0 <= j < |s'| && s'[j] == t[i];
      }
      InsertStrictlySorted(t, s[|s| - 1], key);
    }
  }

  /** One step of the backward scan: `x` moves left past `t[j - 1]`. */
  lemma InsertShift<T>(t: seq<T>, x: T, key: T -> string, j: nat)
    requires 0 < j <= |t|
    requires !LexLe(key(t[j - 1]), key(x))
    ensures Insert(t[..j], x, key) + t[j..] == Insert(t[..j - 1], x, key) + t[j - 1..]
  {
    assert t[..j][..j - 1] == t[..j - 1];
    assert t[j - 1..] == [t[j - 1]] + t[j..];
  }

  /** The scan stops: `x` goes right after `t[..j]`. */
  lemma InsertStop<T>(t: seq<T>, x: T, key: T -> string, j: nat)
    requires j <= |t|
    requires j == 0 || LexLe(key(t[j - 1]), key(x))
    ensures Insert(t[..j], x, key) == t[..j] + [x]
  {
  }

  /** A sequence that holds `t[..j]`, then `x`, then `t[j..]`, begins with their concatenation. */
  lemma Splice<T>(r: seq<T>, t: seq<T>, x: T, i: nat, j: nat)
    requires |t| == i < |r| && j <= i
    requires forall k :: 0 <= k < j ==> r[k] == t[k]
    requires r[j] == x
    requires forall k :: j < k <= i ==> r[k] == t[k - 1]
    ensures r[..i + 1] == t[..j] + [x] + t[j..]
  {
  }

  /**
   * Moves `a[i]` left past the elements of the sorted prefix `a[..i]` whose
   * keys are greater than its own.
   */
  method InsertInPlace<T>(a: array<T>, i: nat, key: T -> string)
    requires i < a.Length
    modifies a
    ensures a[..i + 1] == Insert(old(a[..i]), old(a[i]), key)
    ensures forall k :: i < k < a.Length ==> a[k] == old(a[k])
  {
    var x := a[i];
    ghost var t := a[..i];
    var j := i;
    assert t[..j] + t[j..] == t[..j] == t;
    while j > 0 && !LexLe(key(a[j - 1]), key(x))
      invariant 0 <= j <= i
      invariant forall k :: 0 <= k < j ==> a[k] == t[k]
      invariant forall k :: j < k <= i ==> a[k] == t[k - 1]
      invariant forall k :: i < k < a.Length ==> a[k] == old(a[k])
      invariant Insert(t, x, key) == Insert(t[..j], x, key) + t[j..]
    {
      InsertShift(t, x, key, j);
      a[j] := a[j - 1];
      j := j - 1;
    }
    a[j] := x;
    InsertStop(t, x, key, j);
    Splice(a[..], t, x, i, j);
  }

  /** Sorting one more element of the input is inserting it into the sorted prefix. */
  lemma SortByKeyPrefix<T>(s: seq<T>, i: nat, key: T -> string)
    requires i < |s|
    ensures SortByKey(s[..i + 1], key) == Insert(SortByKey(s[..i], key), s[i], key)
  {
    assert s[..i + 1][..i] == s[..i];
  }

  /** Sorts `a` in place by `key`, stably. */
  method SortInPlace<T>(a: array<T>, key: T -> string)
    modifies a
    ensures a[..] == SortByKey(old(a[..]), key)
  {
    ghost var input := a[..];
    var i := 0;
    while i < a.Length
      invariant 0 <= i <= a.Length
      invariant a[..i] == SortByKey(input[..i], key)
      invariant forall k :: i <= k < a.Length ==> a[k] == input[k]
    {
      SortByKeyPrefix(input, i, key);
      InsertInPlace(a, i, key);
      i := i + 1;
    }
    assert input[..a.Length] == input;
  }

  /** A fresh array holding `s` (`Array.from`, or a copy made before sorting in place). */
  method ToArray<T>(s: seq<T>) returns (a: array<T>)
    ensures fresh(a) && a[..] == s
  {
    a := new T[|s|](i requires 0 <= i < |s| => s[i]);
  }
}
