/**
 * The two list reductions the engine is built from: `Array.prototype.filter`
 * and a `reduce` that adds a numeric projection of every element.
 */
module Seqs {

  /** The elements of `s` that satisfy `p`, in their original order. */
  function Filter<T>(s: seq<T>, p: T -> bool): (r: seq<T>)
    ensures |r| <= |s|
  {
    if |s| == 0 then []
    else Filter(s[..|s| - 1], p) + (if p(s[|s| - 1]) then [s[|s| - 1]] else [])
  }

  lemma FilterPair<T>(x: T, y: T, p: T -> bool)
    ensures Filter([x, y], p) == (if p(x) then [x] else []) + (if p(y) then [y] else [])
  {
    assert [x, y][..1] == [x] && [x][..0] == [];
  }

  lemma FilterSingleton<T>(x: T, p: T -> bool)
    ensures Filter([x], p) == if p(x) then [x] else []
  {
    assert [x][..0] == [];
  }

  /** Every element the filter keeps satisfies `p`. */
  lemma {:induction false} FilterSatisfies<T>(s: seq<T>, p: T -> bool)
    ensures forall i :: 0 <= i < |Filter(s, p)| ==> p(Filter(s, p)[i])
  {
    if |s| > 0 {
      FilterSatisfies(s[..|s| - 1], p);
    }
  }

  /** Filtering keeps every copy of each satisfying element and drops every other one. */
  lemma {:induction false} FilterCount<T>(s: seq<T>, p: T -> bool, x: T)
    ensures multiset(Filter(s, p))[x] == if p(x) then multiset(s)[x] else 0
  {
    if |s| > 0 {
      var s' := s[..|s| - 1];
      assert s == s' + [s[|s| - 1]];
      FilterCount(s', p, x);
    }
  }

  /** `a` is obtained from `b` by deleting elements: `idx` says where each element of `a` sits in `b`. */
  ghost predicate Embeds<T>(a: seq<T>, b: seq<T>, idx: seq<nat>)
  {
    && |idx| == |a|
    && (forall i :: 0 <= i < |idx| ==> idx[i] < |b| && a[i] == b[idx[i]])
    && (forall i, j :: 0 <= i < j < |idx| ==> idx[i] < idx[j])
  }

  ghost predicate IsSubsequence<T>(a: seq<T>, b: seq<T>)
  {
    exists idx :: Embeds(a, b, idx)
  }

  /** Filtering keeps the surviving elements in their original relative order. */
  lemma {:induction false} FilterIsSubsequence<T>(s: seq<T>, p: T -> bool)
    ensures IsSubsequence(Filter(s, p), s)
  {
    if |s| == 0 {
      assert Embeds<T>([], s, []);
    } else {
      var s', y := s[..|s| - 1], s[|s| - 1];
      var a, tail := Filter(s', p), if p(y) then [y] else [];
      FilterIsSubsequence(s', p);
      var idx': seq<nat> :| Embeds(a, s', idx');
      EmbedsExtend(a, s', idx', y, p(y));
      var idx: seq<nat> := idx' + (if p(y) then [|s'|] else []);
      assert Embeds(a + tail, s' + [y], idx);
      assert Filter(s, p) == a + tail;
      assert s' + [y] == s;
    }
  }

  /** An embedding into `b` survives appending `y` to `b`, and to both sides. */
  lemma EmbedsExtend<T>(a: seq<T>, b: seq<T>, idx: seq<nat>, y: T, keep: bool)
    requires Embeds(a, b, idx)
    ensures Embeds(a + (if keep then [y] else []), b + [y], idx + (if keep then [|b|] else []))
  {
  }

  lemma {:induction false} FilterAppend<T>(a: seq<T>, b: seq<T>, p: T -> bool)
    ensures Filter(a + b, p) == Filter(a, p) + Filter(b, p)
  {
    if |b| > 0 {
      var b' := b[..|b| - 1];
      assert (a + b)[..|a + b| - 1] == a + b';
      FilterAppend(a, b', p);
    } else {
      assert a + b == a;
    }
  }

  /** Filtering twice is filtering once by the conjunction. */
  lemma {:induction false} FilterFilter<T>(s: seq<T>, p: T -> bool, q: T -> bool, both: T -> bool)
    requires forall x :: both(x) == (p(x) && q(x))
    ensures Filter(Filter(s, p), q) == Filter(s, both)
  {
    if |s| > 0 {
      var s' := s[..|s| - 1];
      FilterFilter(s', p, q, both);
      FilterAppend(Filter(s', p), if p(s[|s| - 1]) then [s[|s| - 1]] else [], q);
    }
  }

  /** Nothing in `s` satisfies `p`: the filter is empty. */
  lemma {:induction false} FilterNone<T>(s: seq<T>, p: T -> bool)
    requires forall i :: 0 <= i < |s| ==> !p(s[i])
    ensures Filter(s, p) == []
  {
    if |s| > 0 {
      FilterNone(s[..|s| - 1], p);
    }
  }

  /** `Array.prototype.map`: `f` applied to each element of `s`, in order. */
  function Map<A, B>(s: seq<A>, f: A -> B): (r: seq<B>)
    ensures |r| == |s|
  {
    if |s| == 0 then [] else Map(s[..|s| - 1], f) + [f(s[|s| - 1])]
  }

  /** Mapping one more element of `s` appends its image. */
  lemma MapSnoc<A, B>(s: seq<A>, i: nat, f: A -> B)
    requires i < |s|
    ensures Map(s[..i + 1], f) == Map(s[..i], f) + [f(s[i])]
  {
    assert s[..i + 1][..i] == s[..i];
  }

  lemma {:induction false} MapAt<A, B>(s: seq<A>, f: A -> B)
    ensures forall i :: 0 <= i < |s| ==> Map(s, f)[i] == f(s[i])
  {
    if |s| > 0 {
      MapAt(s[..|s| - 1], f);
    }
  }

  lemma {:induction false} MapMember<A, B>(s: seq<A>, f: A -> B, y: B)
    ensures y in Map(s, f) <==> exists i :: 0 <= i < |s| && f(s[i]) == y
  {
    if |s| > 0 {
      MapMember(s[..|s| - 1], f, y);
      assert forall i :: 0 <= i < |s| - 1 ==> s[..|s| - 1][i] == s[i];
    }
  }

  /** Sequences holding the same elements map to sequences holding the same values. */
  lemma MapPermutation<A, B>(a: seq<A>, b: seq<A>, f: A -> B, y: B)
    requires multiset(a) == multiset(b)
    ensures y in Map(a, f) <==> y in Map(b, f)
  {
    MapMember(a, f, y);
    MapMember(b, f, y);
    if y in Map(a, f) {
      var i :| 0 <= i < |a| && f(a[i]) == y;
      assert a[i] in multiset(b);
      var j :| 0 <= j < |b| && b[j] == a[i];
    }
    if y in Map(b, f) {
      var j :| 0 <= j < |b| && f(b[j]) == y;
      assert b[j] in multiset(a);
      var i :| 0 <= i < |a| && a[i] == b[j];
    }
  }

  /** The sum of `f` over the elements of `s`, added from the front (`reduce` from 0). */
  function SumOf<T>(s: seq<T>, f: T -> int): int
  {
    if |s| == 0 then 0 else SumOf(s[..|s| - 1], f) + f(s[|s| - 1])
  }

  lemma {:induction false} SumOfAppend<T>(a: seq<T>, b: seq<T>, f: T -> int)
    ensures SumOf(a + b, f) == SumOf(a, f) + SumOf(b, f)
  {
    if |b| > 0 {
      var b' := b[..|b| - 1];
      assert (a + b)[..|a + b| - 1] == a + b';
      SumOfAppend(a, b', f);
    } else {
      assert a + b == a;
    }
  }

  /** Taking out the element at `k` takes its term out of the sum. */
  lemma SumOfRemove<T>(b: seq<T>, k: nat, f: T -> int)
    requires k < |b|
    ensures SumOf(b, f) == SumOf(b[..k] + b[k + 1..], f) + f(b[k])
  {
    var pre, tail, rest := b[..k], b[k..], b[k + 1..];
    assert b == pre + tail;
    SumOfAppend(pre, tail, f);
    assert tail == [b[k]] + rest;
    SumOfAppend([b[k]], rest, f);
    SumOfSingleton(b[k], f);
    SumOfAppend(pre, rest, f);
  }

  lemma SumOfSingleton<T>(x: T, f: T -> int)
    ensures SumOf([x], f) == f(x)
  {
    assert [x][..0] == [];
  }

  lemma MultisetRemove<T>(b: seq<T>, k: nat)
    requires k < |b|
    ensures multiset(b[..k] + b[k + 1..]) == multiset(b) - multiset{b[k]}
  {
    assert b == b[..k] + [b[k]] + b[k + 1..];
  }

  /** A sum does not depend on the order of its terms. */
  lemma {:induction false} SumOfPermutation<T>(a: seq<T>, b: seq<T>, f: T -> int)
    requires multiset(a) == multiset(b)
    ensures SumOf(a, f) == SumOf(b, f)
  {
    if |a| > 0 {
      var x := a[|a| - 1];
      var a' := a[..|a| - 1];
      assert a == a' + [x];
      assert x in multiset(b);
      var k :| 0 <= k < |b| && b[k] == x;
      MultisetRemove(b, k);
      assert multiset(a') == multiset(a) - multiset{x};
      SumOfPermutation(a', b[..k] + b[k + 1..], f);
      SumOfRemove(b, k, f);
    } else {
      assert |multiset(b)| == 0;
    }
  }

  /** Adding two projections term by term adds their sums. */
  lemma {:induction false} SumOfPointwise<T>(s: seq<T>, f: T -> int, g: T -> int, h: T -> int)
    requires forall i :: 0 <= i < |s| ==> h(s[i]) == f(s[i]) + g(s[i])
    ensures SumOf(s, h) == SumOf(s, f) + SumOf(s, g)
  {
    if |s| > 0 {
      SumOfPointwise(s[..|s| - 1], f, g, h);
    }
  }

  /** Two projections that agree on every element of `s` have the same sum over `s`. */
  lemma {:induction false} SumOfCongruent<T>(s: seq<T>, f: T -> int, g: T -> int)
    requires forall i :: 0 <= i < |s| ==> f(s[i]) == g(s[i])
    ensures SumOf(s, f) == SumOf(s, g)
  {
    if |s| > 0 {
      SumOfCongruent(s[..|s| - 1], f, g);
    }
  }

  /** Terms that are all 0 sum to 0. */
  lemma {:induction false} SumOfZero<T>(s: seq<T>, f: T -> int)
    requires forall i :: 0 <= i < |s| ==> f(s[i]) == 0
    ensures SumOf(s, f) == 0
  {
    if |s| > 0 {
      SumOfZero(s[..|s| - 1], f);
    }
  }

  /** Two sequences of equal length whose terms agree position by position have the same sum. */
  lemma {:induction false} SumOfZip<A, B>(a: seq<A>, f: A -> int, b: seq<B>, g: B -> int)
    requires |a| == |b|
    requires forall i :: 0 <= i < |a| ==> f(a[i]) == g(b[i])
    ensures SumOf(a, f) == SumOf(b, g)
  {
    if |a| > 0 {
      SumOfZip(a[..|a| - 1], f, b[..|b| - 1], g);
    }
  }

  /** Summing a projection of the mapped elements is summing the composed projection. */
  lemma {:induction false} SumOfMap<A, B>(s: seq<A>, f: A -> B, g: B -> int, h: A -> int)
    requires forall i :: 0 <= i < |s| ==> g(f(s[i])) == h(s[i])
    ensures SumOf(Map(s, f), g) == SumOf(s, h)
  {
    if |s| > 0 {
      var m := Map(s, f);
      assert m[..|m| - 1] == Map(s[..|s| - 1], f);
      SumOfMap(s[..|s| - 1], f, g, h);
    }
  }

  /** Filters by predicates that agree on every element keep the same elements. */
  lemma {:induction false} FilterSame<T>(s: seq<T>, p: T -> bool, q: T -> bool)
    requires forall i :: 0 <= i < |s| ==> p(s[i]) == q(s[i])
    ensures Filter(s, p) == Filter(s, q)
  {
    if |s| > 0 {
      FilterSame(s[..|s| - 1], p, q);
    }
  }

  /** Elements whose `key` is `k`. */
  function KeyIs<T, K(==)>(key: T -> K, k: K): T -> bool
  {
    (x: T) => key(x) == k
  }

  /** The sum of `f` over the elements of `s` with each key, as a function of the key. */
  function KeySum<T, K(==)>(s: seq<T>, key: T -> K, f: T -> int): K -> int
  {
    (k: K) => SumOf(Filter(s, KeyIs(key, k)), f)
  }

  predicate Distinct<K(==)>(ks: seq<K>)
  {
    forall i, j :: 0 <= i < j < |ks| ==> ks[i] != ks[j]
  }

  /** `v` at `k` and 0 at every other key. */
  function Indicator<K(==)>(k: K, v: int): K -> int
  {
    (x: K) => if x == k then v else 0
  }

  lemma {:induction false} SumOfIndicator<K>(ks: seq<K>, k: K, v: int)
    requires Distinct(ks)
    ensures SumOf(ks, Indicator(k, v)) == if k in ks then v else 0
  {
    if |ks| > 0 {
      var rest := ks[..|ks| - 1];
      SumOfIndicator(rest, k, v);
      assert ks == rest + [ks[|ks| - 1]];
    }
  }

  /**
   * When every element's key is listed exactly once in `ks`, a sum over the
   * elements is the sum over the keys of the sums over each key's elements.
   */
  lemma {:induction false} SumByKey<T, K>(s: seq<T>, key: T -> K, ks: seq<K>, f: T -> int)
    requires Distinct(ks)
    requires forall i :: 0 <= i < |s| ==> key(s[i]) in ks
    ensures SumOf(s, f) == SumOf(ks, KeySum(s, key, f))
  {
    if |s| > 0 {
      var rest, x := s[..|s| - 1], s[|s| - 1];
      assert s == rest + [x];
      assert key(x) in ks;
      SumByKey(rest, key, ks, f);
      forall i | 0 <= i < |ks|
        ensures KeySum(s, key, f)(ks[i]) == KeySum(rest, key, f)(ks[i]) + Indicator(key(x), f(x))(ks[i])
      {
        var p := KeyIs(key, ks[i]);
        FilterAppend(rest, [x], p);
        assert Filter([x], p) == if p(x) then [x] else [] by {
          assert [x][..0] == [];
        }
        SumOfAppend(Filter(rest, p), Filter([x], p), f);
        if p(x) {
          SumOfSingleton(x, f);
        }
      }
      SumOfPointwise(ks, KeySum(rest, key, f), Indicator(key(x), f(x)), KeySum(s, key, f));
      SumOfIndicator(ks, key(x), f(x));
    } else {
      SumOfZero(ks, KeySum(s, key, f));
    }
  }
}
