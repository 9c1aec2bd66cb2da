/**
 * The Kotlin collection operations the app composes: `filter`, `count`,
 * `distinctBy` (first occurrence wins) and flattening a list of lists.
 * All are defined element by element from the end, the way a loop appending
 * to a result list builds them.
 */
module Collections {

  /** `s.filter(p)`: the elements satisfying `p`, in order. */
  function Filter<T(!new)>(s: seq<T>, p: T -> bool): (r: seq<T>)
    ensures |r| <= |s|
    ensures forall x :: x in r <==> x in s && p(x)
  {
    if s == [] then []
    else Filter(s[..|s| - 1], p) + (if p(s[|s| - 1]) then [s[|s| - 1]] else [])
  }

  /** Filtering one more element appends it when it qualifies. */
  lemma FilterSnoc<T(!new)>(s: seq<T>, i: nat, p: T -> bool)
    requires i < |s|
    ensures Filter(s[..i + 1], p) == Filter(s[..i], p) + (if p(s[i]) then [s[i]] else [])
  {
    assert s[..i + 1][..i] == s[..i];
  }

  /** Filtering a list extended by one element. */
  lemma FilterAppendOne<T(!new)>(s: seq<T>, x: T, p: T -> bool)
    ensures Filter(s + [x], p) == Filter(s, p) + (if p(x) then [x] else [])
  {
    assert (s + [x])[..|s|] == s;
  }

  /** Filtering keeps order: the result is the filter of each part. */
  lemma {:induction false} FilterConcat<T(!new)>(a: seq<T>, b: seq<T>, p: T -> bool)
    ensures Filter(a + b, p) == Filter(a, p) + Filter(b, p)
    decreases |b|
  {
    if b == [] {
      assert a + b == a;
    } else {
      var b' := b[..|b| - 1];
      assert (a + b)[..|a + b| - 1] == a + b';
      FilterConcat(a, b', p);
    }
  }

  /** `s.count(p)`. */
  function Count<T(!new)>(s: seq<T>, p: T -> bool): nat {
    |Filter(s, p)|
  }

  /** Some element of `s` has key `k`. */
  predicate HasKey<T(!new), K(==)>(s: seq<T>, key: T -> K, k: K) {
    exists i :: 0 <= i < |s| && key(s[i]) == k
  }

  /**
   * `s.distinctBy(key)`: the first element of each key, in order of first occurrence.
   */
  function DistinctBy<T(!new), K(==)>(s: seq<T>, key: T -> K): (r: seq<T>)
    ensures |r| <= |s|
  {
    if s == [] then []
    else
      var init := DistinctBy(s[..|s| - 1], key);
      var x := s[|s| - 1];
      if HasKey(init, key, key(x)) then init else init + [x]
  }

  /**
   * `distinctBy` keeps only elements of its input, no two with the same key, and
   * one for every key of the input.
   */
  lemma {:induction false} DistinctByProperties<T(!new), K>(s: seq<T>, key: T -> K)
    ensures var r := DistinctBy(s, key);
      && (forall i :: 0 <= i < |r| ==> exists j :: 0 <= j < |s| && r[i] == s[j])
      && (forall i, j :: 0 <= i < j < |r| ==> key(r[i]) != key(r[j]))
      && (forall j :: 0 <= j < |s| ==> HasKey(r, key, key(s[j])))
  {
    if s != [] {
      var init := s[..|s| - 1];
      var x := s[|s| - 1];
      DistinctByProperties(init, key);
      var ri := DistinctBy(init, key);
      var r := DistinctBy(s, key);
      forall i | 0 <= i < |r|
        ensures exists j :: 0 <= j < |s| && r[i] == s[j]
      {
        if i < |ri| {
          var j :| 0 <= j < |init| && ri[i] == init[j];
          assert r[i] == s[j];
        } else {
          assert r[i] == s[|s| - 1];
        }
      }
      forall j | 0 <= j < |s|
        ensures HasKey(r, key, key(s[j]))
      {
        if j < |init| {
          assert HasKey(ri, key, key(init[j]));
          var k :| 0 <= k < |ri| && key(ri[k]) == key(init[j]);
          assert key(r[k]) == key(s[j]);
        } else if !HasKey(ri, key, key(x)) {
          assert key(r[|ri|]) == key(s[j]);
        }
      }
    }
  }

  /** The input positions `distinctBy` keeps, built the same way as `DistinctBy`. */
  ghost function KeptIndices<T(!new), K>(s: seq<T>, key: T -> K): seq<nat> {
    if s == [] then []
    else
      var init := KeptIndices(s[..|s| - 1], key);
      if HasKey(DistinctBy(s[..|s| - 1], key), key, key(s[|s| - 1])) then init else init + [|s| - 1]
  }

  /**
   * `distinctBy` keeps the first element of each key and keeps them in input
   * order: the k-th result is the element at an increasing input position, and
   * no earlier input element has its key.
   */
  lemma {:induction false} DistinctByFirstOccurrences<T(!new), K>(s: seq<T>, key: T -> K)
    ensures var r, idx := DistinctBy(s, key), KeptIndices(s, key);
      && |idx| == |r|
      && (forall k :: 0 <= k < |r| ==> idx[k] < |s| && r[k] == s[idx[k]])
      && (forall k1, k2 :: 0 <= k1 < k2 < |r| ==> idx[k1] < idx[k2])
      && (forall k, j :: 0 <= k < |r| && 0 <= j < idx[k] ==> key(s[j]) != key(r[k]))
  {
    if s != [] {
      var init := s[..|s| - 1];
      var x := s[|s| - 1];
      DistinctByFirstOccurrences(init, key);
      var ri, ii := DistinctBy(init, key), KeptIndices(init, key);
      var r, idx := DistinctBy(s, key), KeptIndices(s, key);
      assert forall j :: 0 <= j < |init| ==> s[j] == init[j];
      if HasKey(ri, key, key(x)) {
        assert r == ri && idx == ii;
      } else {
        assert r == ri + [x] && idx == ii + [|s| - 1];
        DistinctByProperties(init, key);
        forall j | 0 <= j < |init|
          ensures key(s[j]) != key(x)
        {
          assert HasKey(ri, key, key(init[j]));
        }
      }
    }
  }

  /** The same, with the kept position as a witness: each result is the first of its key. */
  lemma DistinctByKeepsFirst<T(!new), K>(s: seq<T>, key: T -> K)
    ensures var r := DistinctBy(s, key);
      forall k :: 0 <= k < |r| ==>
        exists i :: 0 <= i < |s| && s[i] == r[k] && forall j :: 0 <= j < i ==> key(s[j]) != key(s[i])
  {
    DistinctByFirstOccurrences(s, key);
    var r, idx := DistinctBy(s, key), KeptIndices(s, key);
    forall k | 0 <= k < |r|
      ensures exists i :: 0 <= i < |s| && s[i] == r[k] && forall j :: 0 <= j < i ==> key(s[j]) != key(s[i])
    {
      var i := idx[k];
      assert s[i] == r[k];
    }
  }

  /** The same facts stated with membership instead of indices. */
  lemma DistinctByMembership<T(!new), K>(s: seq<T>, key: T -> K)
    ensures forall y :: y in DistinctBy(s, key) ==> y in s
    ensures forall x :: x in s ==> exists y :: y in DistinctBy(s, key) && key(y) == key(x)
  {
    var r := DistinctBy(s, key);
    DistinctByProperties(s, key);
    forall y | y in r
      ensures y in s
    {
      var i :| 0 <= i < |r| && r[i] == y;
      var j :| 0 <= j < |s| && r[i] == s[j];
    }
    forall x | x in s
      ensures exists y :: y in r && key(y) == key(x)
    {
      var j :| 0 <= j < |s| && s[j] == x;
      assert HasKey(r, key, key(s[j]));
      var i :| 0 <= i < |r| && key(r[i]) == key(s[j]);
      assert r[i] in r;
    }
  }

  /** What `distinctBy` keeps from a prefix is a prefix of what it keeps from the whole. */
  lemma {:induction false} DistinctByPrefix<T(!new), K>(a: seq<T>, b: seq<T>, key: T -> K)
    ensures DistinctBy(a, key) <= DistinctBy(a + b, key)
    decreases |b|
  {
    if b == [] {
      assert a + b == a;
    } else {
      var b' := b[..|b| - 1];
      assert (a + b)[..|a + b| - 1] == a + b';
      DistinctByPrefix(a, b', key);
    }
  }

  /** When the keys are already distinct, `distinctBy` changes nothing. */
  lemma {:induction false} DistinctByIdentity<T(!new), K>(s: seq<T>, key: T -> K)
    requires forall i, j :: 0 <= i < j < |s| ==> key(s[i]) != key(s[j])
    ensures DistinctBy(s, key) == s
  {
    if s != [] {
      var init := s[..|s| - 1];
      DistinctByIdentity(init, key);
      assert !HasKey(init, key, key(s[|s| - 1]));
      assert s == init + [s[|s| - 1]];
    }
  }

  /** `ss.flatten()`: the lists one after the other. */
  function Flatten<T(!new)>(ss: seq<seq<T>>): (r: seq<T>)
    ensures forall x :: x in r <==> exists i :: 0 <= i < |ss| && x in ss[i]
  {
    if ss == [] then []
    else
      var init := ss[..|ss| - 1];
      assert forall i :: 0 <= i < |init| ==> init[i] == ss[i];
      Flatten(init) + ss[|ss| - 1]
  }
}
