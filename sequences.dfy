/**
 * Sequence vocabulary shared by the containers of the model: ordering by a key,
 * order-preserving filtering (the erase/remove_if idiom and the filtering loops),
 * the first match of a predicate (find_if) and sorting (std::sort, which
 * promises a sorted permutation and nothing about the order of equal keys).
 */
module Sequences {
  import opened Options

  /** Non-decreasing by key. */
  ghost predicate SortedBy<T>(s: seq<T>, key: T -> int)
  {
    forall i, j :: 0 <= i < j < |s| ==> key(s[i]) <= key(s[j])
  }

  /** Strictly increasing by key: sorted and no key repeated. */
  ghost predicate StrictlySortedBy<T>(s: seq<T>, key: T -> int)
  {
    forall i, j :: 0 <= i < j < |s| ==> key(s[i]) < key(s[j])
  }

  /** The elements of s that satisfy keep, in their original order. */
  function Filter<T(==)>(s: seq<T>, keep: T -> bool): (r: seq<T>)
    ensures |r| <= |s|
    ensures forall i :: 0 <= i < |r| ==> r[i] in s && keep(r[i])
    ensures forall i :: 0 <= i < |s| ==> (s[i] in r <==> keep(s[i]))
  {
    if s == [] then []
    else if keep(s[|s| - 1]) then Filter(s[..|s| - 1], keep) + [s[|s| - 1]]
    else Filter(s[..|s| - 1], keep)
  }

  /** The predicate "key differs from k", the condition an erase by key keeps. */
  function KeyIsNot<T>(key: T -> int, k: int): T -> bool
  {
    x => key(x) != k
  }

  /** The index of the first element satisfying p, if any. */
  function FirstIndex<T>(s: seq<T>, p: T -> bool): (r: Option<nat>)
    ensures r.None? <==> forall i :: 0 <= i < |s| ==> !p(s[i])
    ensures r.Some? ==> r.value < |s| && p(s[r.value]) && forall i :: 0 <= i < r.value ==> !p(s[i])
  {
    if s == [] then None
    else if p(s[0]) then Some(0)
    else match FirstIndex(s[1..], p)
      case None => None
      case Some(i) => Some(i + 1)
  }

  /** x placed after every element whose key does not exceed key(x). */
  function InsertByKey<T(==)>(s: seq<T>, x: T, key: T -> int): (r: seq<T>)
    ensures |r| == |s| + 1
    ensures multiset(r) == multiset(s) + multiset{x}
  {
    if s == [] then [x]
    else if key(x) < key(s[0]) then [x] + s
    else
      assert s == [s[0]] + s[1..];
      [s[0]] + InsertByKey(s[1..], x, key)
  }

  /** An element whose key is at least every key present is inserted last. */
  lemma {:induction false} InsertByKeyLast<T>(s: seq<T>, x: T, key: T -> int)
    requires forall i :: 0 <= i < |s| ==> key(s[i]) <= key(x)
    ensures InsertByKey(s, x, key) == s + [x]
  {
    if s != [] {
      InsertByKeyLast(s[1..], x, key);
      assert s == [s[0]] + s[1..];
    }
  }

  /** The elements after an insertion are the old ones and the inserted one. */
  lemma InsertMember<T>(s: seq<T>, x: T, key: T -> int, y: T)
    ensures y in InsertByKey(s, x, key) <==> y in s || y == x
  {
    var r := InsertByKey(s, x, key);
    assert y in r <==> y in multiset(r);
    assert y in multiset(r) <==> y in multiset(s) || y == x;
  }

  /** The elements a filter keeps are the ones of s that pass. */
  lemma FilterMember<T>(s: seq<T>, keep: T -> bool, y: T)
    ensures y in Filter(s, keep) <==> y in s && keep(y)
  {
    if y in s {
      var k :| 0 <= k < |s| && s[k] == y;
    }
  }

  /** Inserting into a sorted sequence keeps it sorted. */
  lemma {:induction false} InsertSorted<T>(s: seq<T>, x: T, key: T -> int)
    requires SortedBy(s, key)
    ensures SortedBy(InsertByKey(s, x, key), key)
  {
    if s != [] && key(x) >= key(s[0]) {
      var t := s[1..];
      assert SortedBy(t, key);
      InsertSorted(t, x, key);
      var it := InsertByKey(t, x, key);
      forall k | 0 <= k < |it|
        ensures key(s[0]) <= key(it[k])
      {
        assert it[k] in multiset(t) + multiset{x};
        assert it[k] in t || it[k] == x;
      }
    }
  }

  /** Inserting a fresh key into a strictly increasing sequence keeps it strictly increasing. */
  lemma {:induction false} InsertStrictlySorted<T>(s: seq<T>, x: T, key: T -> int)
    requires StrictlySortedBy(s, key)
    requires forall i :: 0 <= i < |s| ==> key(s[i]) != key(x)
    ensures StrictlySortedBy(InsertByKey(s, x, key), key)
  {
    if s != [] && key(x) >= key(s[0]) {
      var t := s[1..];
      assert StrictlySortedBy(t, key);
      InsertStrictlySorted(t, x, key);
      var it := InsertByKey(t, x, key);
      forall k | 0 <= k < |it|
        ensures key(s[0]) < key(it[k])
      {
        assert it[k] in multiset(t) + multiset{x};
        assert it[k] in t || it[k] == x;
      }
    }
  }

  /** The model of std::sort: some ordering of s that is sorted by key. */
  method SortByKey<T(==)>(s: seq<T>, key: T -> int) returns (r: seq<T>)
    ensures SortedBy(r, key)
    ensures multiset(r) == multiset(s)
  {
    r := [];
    var i := 0;
    while i < |s|
      invariant 0 <= i <= |s|
      invariant SortedBy(r, key)
      invariant multiset(r) == multiset(s[..i])
    {
      assert s[..i + 1] == s[..i] + [s[i]];
      InsertSorted(r, s[i], key);
      r := InsertByKey(r, s[i], key);
      i := i + 1;
    }
    assert s[..|s|] == s;
  }

  /** Filtering keeps a sorted sequence sorted. */
  lemma {:induction false} FilterSorted<T>(s: seq<T>, keep: T -> bool, key: T -> int)
    requires SortedBy(s, key)
    ensures SortedBy(Filter(s, keep), key)
  {
    if s != [] {
      var init := s[..|s| - 1];
      assert SortedBy(init, key);
      FilterSorted(init, keep, key);
      var f := Filter(init, keep);
      forall y | y in f
        ensures key(y) <= key(s[|s| - 1])
      {
        var k :| 0 <= k < |init| && init[k] == y;
      }
    }
  }

  /** Filtering keeps a strictly increasing sequence strictly increasing. */
  lemma {:induction false} FilterStrictlySorted<T>(s: seq<T>, keep: T -> bool, key: T -> int)
    requires StrictlySortedBy(s, key)
    ensures StrictlySortedBy(Filter(s, keep), key)
  {
    if s != [] {
      var init := s[..|s| - 1];
      assert StrictlySortedBy(init, key);
      FilterStrictlySorted(init, keep, key);
      var f := Filter(init, keep);
      forall y | y in f
        ensures key(y) < key(s[|s| - 1])
      {
        var k :| 0 <= k < |init| && init[k] == y;
      }
    }
  }

  /** Filtering distributes over concatenation. */
  lemma {:induction false} FilterAppend<T>(a: seq<T>, b: seq<T>, keep: T -> bool)
    ensures Filter(a + b, keep) == Filter(a, keep) + Filter(b, keep)
  {
    if b != [] {
      var b' := b[..|b| - 1];
      assert (a + b)[..|a + b| - 1] == a + b';
      FilterAppend(a, b', keep);
    } else {
      assert a + b == a;
    }
  }

  /**
   * A sorted ordering of the elements of a strictly increasing sequence is that
   * sequence: sorting a collection with distinct keys has exactly one outcome.
   */
  lemma {:induction false} SortedPermutationUnique<T>(a: seq<T>, b: seq<T>, key: T -> int)
    requires SortedBy(a, key) && StrictlySortedBy(b, key)
    requires multiset(a) == multiset(b)
    ensures a == b
  {
    assert |a| == |multiset(a)| == |multiset(b)| == |b|;
    if a != [] {
      SameHead(a, b, key);
      MultisetTail(a, b);
      assert SortedBy(a[1..], key);
      assert StrictlySortedBy(b[1..], key);
      SortedPermutationUnique(a[1..], b[1..], key);
      assert a == [a[0]] + a[1..];
      assert b == [b[0]] + b[1..];
    }
  }

  lemma SameHead<T>(a: seq<T>, b: seq<T>, key: T -> int)
    requires a != [] && b != []
    requires SortedBy(a, key) && StrictlySortedBy(b, key)
    requires multiset(a) == multiset(b)
    ensures a[0] == b[0]
  {
    assert a[0] in multiset(b);
    var k :| 0 <= k < |b| && b[k] == a[0];
    assert b[0] in multiset(a);
    var m :| 0 <= m < |a| && a[m] == b[0];
    assert key(a[0]) <= key(a[m]);
  }

  lemma MultisetTail<T>(a: seq<T>, b: seq<T>)
    requires a != [] && b != [] && a[0] == b[0]
    requires multiset(a) == multiset(b)
    ensures multiset(a[1..]) == multiset(b[1..])
  {
    assert a == [a[0]] + a[1..];
    assert b == [b[0]] + b[1..];
    var h, ta, tb := multiset([a[0]]), multiset(a[1..]), multiset(b[1..]);
    assert h + ta == multiset(a) == multiset(b) == h + tb;
    forall x
      ensures ta[x] == tb[x]
    {
      assert (h + ta)[x] == (h + tb)[x];
    }
    assert ta == tb;
  }

  /**
   * Erasing every element with key(x) and then sorting in x yields one
   * definite sequence: x inserted into the erased sequence, still strictly
   * increasing.
   */
  lemma ReplaceByKey<T>(s: seq<T>, x: T, key: T -> int, r: seq<T>)
    requires StrictlySortedBy(s, key)
    requires SortedBy(r, key)
    requires multiset(r) == multiset(Filter(s, KeyIsNot(key, key(x))) + [x])
    ensures r == InsertByKey(Filter(s, KeyIsNot(key, key(x))), x, key)
    ensures StrictlySortedBy(r, key)
  {
    var f := Filter(s, KeyIsNot(key, key(x)));
    FilterStrictlySorted(s, KeyIsNot(key, key(x)), key);
    InsertStrictlySorted(f, x, key);
    var ins := InsertByKey(f, x, key);
    assert multiset(r) == multiset(ins);
    SortedPermutationUnique(r, ins, key);
  }

  /** No two positions of s carry the same key. */
  ghost predicate DistinctBy<T, K>(s: seq<T>, key: T -> K)
  {
    forall i, j :: 0 <= i < j < |s| ==> key(s[i]) != key(s[j])
  }

  /** Filtering keeps keys distinct. */
  lemma {:induction false} FilterDistinct<T, K>(s: seq<T>, keep: T -> bool, key: T -> K)
    requires DistinctBy(s, key)
    ensures DistinctBy(Filter(s, keep), key)
  {
    if s != [] {
      var init := s[..|s| - 1];
      assert DistinctBy(init, key);
      FilterDistinct(init, keep, key);
      var f := Filter(init, keep);
      forall y | y in f
        ensures key(y) != key(s[|s| - 1])
      {
        var k :| 0 <= k < |init| && init[k] == y;
      }
    }
  }

  /** The elements at two different positions form a sub-multiset. */
  lemma TwoPositions<T>(s: seq<T>, i: nat, j: nat)
    requires i < |s| && j < |s| && i != j
    ensures multiset{s[i], s[j]} <= multiset(s)
  {
    if i < j {
      OrderedPositions(s, i, j);
    } else {
      OrderedPositions(s, j, i);
    }
  }

  lemma OrderedPositions<T>(s: seq<T>, lo: nat, hi: nat)
    requires lo < hi < |s|
    ensures multiset{s[lo], s[hi]} <= multiset(s)
  {
    var pre := s[..hi];
    assert s == pre + [s[hi]] + s[hi + 1..];
    assert multiset(s) == multiset(pre) + multiset{s[hi]} + multiset(s[hi + 1..]);
    assert pre[lo] == s[lo];
    assert s[lo] in multiset(pre);
  }

  /** Two elements forming a sub-multiset sit at two different positions. */
  lemma PositionsOfPair<T>(s: seq<T>, x: T, y: T) returns (i: nat, j: nat)
    requires multiset{x, y} <= multiset(s)
    ensures i < |s| && j < |s| && i != j && s[i] == x && s[j] == y
  {
    assert x in multiset{x, y};
    i :| 0 <= i < |s| && s[i] == x;
    var rest := s[..i] + s[i + 1..];
    RemoveAtMultiset(s, i);
    PairInRest(multiset(rest), x, y);
    var k :| 0 <= k < |rest| && rest[k] == y;
    j := if k < i then k else k + 1;
    RemoveAtIndex(s, i, k);
  }

  lemma RemoveAtMultiset<T>(s: seq<T>, i: nat)
    requires i < |s|
    ensures multiset(s) == multiset(s[..i] + s[i + 1..]) + multiset{s[i]}
  {
    assert s == s[..i] + [s[i]] + s[i + 1..];
  }

  lemma RemoveAtIndex<T>(s: seq<T>, i: nat, k: nat)
    requires i < |s| && k < |s| - 1
    ensures (s[..i] + s[i + 1..])[k] == s[if k < i then k else k + 1]
  {
  }

  lemma PairInRest<T>(rest: multiset<T>, x: T, y: T)
    requires multiset{x, y} <= rest + multiset{x}
    ensures y in rest
  {
    assert multiset{x, y}[y] == multiset{x}[y] + 1;
    assert (rest + multiset{x})[y] == rest[y] + multiset{x}[y];
  }

  /** Adding the same element to two multisets preserves their difference. */
  lemma MultisetCancel<T>(a: multiset<T>, b: multiset<T>, x: T)
    requires a + multiset{x} == b + multiset{x}
    ensures a == b
  {
    forall y
      ensures a[y] == b[y]
    {
      assert (a + multiset{x})[y] == (b + multiset{x})[y];
    }
  }
}
