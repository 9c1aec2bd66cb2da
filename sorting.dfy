/**
 * Kotlin's `sortedBy` / `sortedByDescending`: a stable sort of a list by a key,
 * written as insertion from the end of the list so that equal keys keep their
 * order. The key order is a parameter, so descending sorts use the reversed
 * order.
 */
module Sorting {
  import opened Collections

  /** `le` is a total order: reflexive, antisymmetric, transitive and total. */
  ghost predicate TotalOrder<K(!new)>(le: (K, K) -> bool) {
    && (forall a :: le(a, a))
    && (forall a, b :: le(a, b) && le(b, a) ==> a == b)
    && (forall a, b, c :: le(a, b) && le(b, c) ==> le(a, c))
    && (forall a, b :: le(a, b) || le(b, a))
  }

  /** The keys of `s` are in order. */
  ghost predicate SortedBy<T(!new), K>(s: seq<T>, key: T -> K, le: (K, K) -> bool) {
    forall i, j :: 0 <= i < j < |s| ==> le(key(s[i]), key(s[j]))
  }

  /** Insert `x` after every element whose key is at most `x`'s, scanning from the end. */
  function Insert<T(!new), K>(r: seq<T>, x: T, key: T -> K, le: (K, K) -> bool): (result: seq<T>)
    ensures |result| == |r| + 1
  {
    if r == [] then [x]
    else if le(key(r[|r| - 1]), key(x)) then r + [x]
    else Insert(r[..|r| - 1], x, key, le) + [r[|r| - 1]]
  }

  /** The list sorted by `key` under `le`, stably. */
  function SortBy<T(!new), K>(s: seq<T>, key: T -> K, le: (K, K) -> bool): (result: seq<T>)
    ensures |result| == |s|
  {
    if s == [] then [] else Insert(SortBy(s[..|s| - 1], key, le), s[|s| - 1], key, le)
  }

  lemma {:induction false} InsertPermutes<T(!new), K>(r: seq<T>, x: T, key: T -> K, le: (K, K) -> bool)
    ensures multiset(Insert(r, x, key, le)) == multiset(r) + multiset{x}
  {
    if r != [] && !le(key(r[|r| - 1]), key(x)) {
      InsertPermutes(r[..|r| - 1], x, key, le);
      assert r == r[..|r| - 1] + [r[|r| - 1]];
    }
  }

  /** Sorting only rearranges: the result is a permutation of the input. */
  lemma {:induction false} SortByPermutes<T(!new), K>(s: seq<T>, key: T -> K, le: (K, K) -> bool)
    ensures multiset(SortBy(s, key, le)) == multiset(s)
  {
    if s != [] {
      SortByPermutes(s[..|s| - 1], key, le);
      InsertPermutes(SortBy(s[..|s| - 1], key, le), s[|s| - 1], key, le);
      assert s == s[..|s| - 1] + [s[|s| - 1]];
    }
  }

  lemma {:induction false} InsertSorted<T(!new), K(!new)>(r: seq<T>, x: T, key: T -> K, le: (K, K) -> bool)
    requires TotalOrder(le) && SortedBy(r, key, le)
    ensures SortedBy(Insert(r, x, key, le), key, le)
    ensures forall y :: y in Insert(r, x, key, le) ==> y in r || y == x
  {
    if r != [] && !le(key(r[|r| - 1]), key(x)) {
      var init := r[..|r| - 1];
      var last := r[|r| - 1];
      assert SortedBy(init, key, le);
      InsertSorted(init, x, key, le);
      var ins := Insert(init, x, key, le);
      forall i | 0 <= i < |ins|
        ensures le(key(ins[i]), key(last))
      {
        assert ins[i] in ins;
        if ins[i] != x {
          var j :| 0 <= j < |init| && init[j] == ins[i];
          assert r[j] == init[j];
        }
      }
    }
  }

  /** The result is sorted. */
  lemma {:induction false} SortBySorted<T(!new), K(!new)>(s: seq<T>, key: T -> K, le: (K, K) -> bool)
    requires TotalOrder(le)
    ensures SortedBy(SortBy(s, key, le), key, le)
  {
    if s != [] {
      SortBySorted(s[..|s| - 1], key, le);
      InsertSorted(SortBy(s[..|s| - 1], key, le), s[|s| - 1], key, le);
    }
  }

  /** The elements whose key is `k`. */
  function KeyIs<T, K(==)>(key: T -> K, k: K): T -> bool {
    (x: T) => key(x) == k
  }

  lemma {:induction false} InsertStable<T(!new), K(!new)>(r: seq<T>, x: T, key: T -> K, le: (K, K) -> bool, k: K)
    requires forall a :: le(a, a)
    ensures Filter(Insert(r, x, key, le), KeyIs(key, k))
         == Filter(r, KeyIs(key, k)) + (if key(x) == k then [x] else [])
  {
    var p := KeyIs(key, k);
    if r == [] {
      FilterAppendOne([], x, p);
      assert [] + [x] == [x];
    } else if le(key(r[|r| - 1]), key(x)) {
      FilterAppendOne(r, x, p);
    } else {
      var init := r[..|r| - 1];
      var last := r[|r| - 1];
      assert r == init + [last];
      InsertStable(init, x, key, le, k);
      FilterAppendOne(Insert(init, x, key, le), last, p);
      FilterAppendOne(init, last, p);
      assert le(key(x), key(x));
    }
  }

  /** Stability: the elements with any one key come out in their input order. */
  lemma {:induction false} SortByStable<T(!new), K(!new)>(s: seq<T>, key: T -> K, le: (K, K) -> bool, k: K)
    requires forall a :: le(a, a)
    ensures Filter(SortBy(s, key, le), KeyIs(key, k)) == Filter(s, KeyIs(key, k))
  {
    if s != [] {
      SortByStable(s[..|s| - 1], key, le, k);
      InsertStable(SortBy(s[..|s| - 1], key, le), s[|s| - 1], key, le, k);
      FilterSnoc(s, |s| - 1, KeyIs(key, k));
      assert s[..|s|] == s;
    }
  }

  /** `sortedByDescending` sorts under the reversed order. */
  function Reversed<K>(le: (K, K) -> bool): (K, K) -> bool {
    (a: K, b: K) => le(b, a)
  }

  lemma ReversedTotalOrder<K(!new)>(le: (K, K) -> bool)
    requires TotalOrder(le)
    ensures TotalOrder(Reversed(le))
  {
  }
}
