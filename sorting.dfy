/**
  Sorting by a numeric key: `sorted(by:)` with a key comparison and a
  `FetchDescriptor` with a `SortDescriptor`. Descending orders sort by the
  negated key.
*/
module Sorting {
  import opened Tables

  predicate SortedBy<T>(s: seq<T>, key: T -> real) {
    forall i, j :: 0 <= i < j < |s| ==> key(s[i]) <= key(s[j])
  }

  lemma InMultiset<T>(s: seq<T>, k: nat)
    requires k < |s|
    ensures s[k] in multiset(s)
  {
  }

  /** In a sorted sequence no later element has a key below the first one's. */
  lemma SortedHeadBound<T>(s: seq<T>, key: T -> real, y: T)
    requires s != [] && SortedBy(s, key) && y in multiset(s[1..])
    ensures key(s[0]) <= key(y)
  {
    var j :| 0 <= j < |s[1..]| && s[1..][j] == y;
    assert s[j + 1] == y;
  }

  /** `x` placed before the first element of the sorted `s` whose key is larger. */
  function Insert<T>(x: T, s: seq<T>, key: T -> real): (r: seq<T>)
    requires SortedBy(s, key)
    ensures SortedBy(r, key)
    ensures multiset(r) == multiset(s) + multiset{x}
    ensures |r| == |s| + 1
  {
    if s == [] then [x]
    else if key(x) <= key(s[0]) then
      [x] + s
    else
      var rest := Insert(x, s[1..], key);
      HeadSplit(s);
      forall k | 0 <= k < |rest|
        ensures key(s[0]) <= key(rest[k])
      {
        InMultiset(rest, k);
        if rest[k] != x {
          SortedHeadBound(s, key, rest[k]);
        }
      }
      [s[0]] + rest
  }

  /** `s` in ascending order of `key`; `SortStable` shows that equal keys keep their original order. */
  function SortBy<T>(s: seq<T>, key: T -> real): (r: seq<T>)
    ensures SortedBy(r, key)
    ensures multiset(r) == multiset(s)
    ensures |r| == |s|
  {
    if s == [] then []
    else
      HeadSplit(s);
      Insert(s[0], SortBy(s[1..], key), key)
  }

  /** The predicate "the key is `k`". */
  function SameKey<T>(key: T -> real, k: real): T -> bool {
    x => key(x) == k
  }

  lemma FilterCons<T(!new)>(x: T, s: seq<T>, p: T -> bool)
    ensures Filter([x] + s, p) == if p(x) then [x] + Filter(s, p) else Filter(s, p)
  {
    assert ([x] + s)[1..] == s;
  }

  /** `x` goes in front of every element with the same key, so among them it keeps its place. */
  lemma {:induction false} InsertStable<T(!new)>(x: T, s: seq<T>, key: T -> real, k: real)
    requires SortedBy(s, key)
    ensures Filter(Insert(x, s, key), SameKey(key, k)) == Filter([x] + s, SameKey(key, k))
  {
    var p := SameKey(key, k);
    if s != [] && key(x) > key(s[0]) {
      HeadSplit(s);
      InsertStable(x, s[1..], key, k);
      FilterCons(s[0], Insert(x, s[1..], key), p);
      FilterCons(x, s[1..], p);
      FilterCons(s[0], s[1..], p);
      FilterCons(x, s, p);
    }
  }

  lemma {:induction false} SortStableAt<T(!new)>(s: seq<T>, key: T -> real, k: real)
    ensures Filter(SortBy(s, key), SameKey(key, k)) == Filter(s, SameKey(key, k))
  {
    if s != [] {
      HeadSplit(s);
      SortStableAt(s[1..], key, k);
      InsertStable(s[0], SortBy(s[1..], key), key, k);
      FilterCons(s[0], SortBy(s[1..], key), SameKey(key, k));
      FilterCons(s[0], s[1..], SameKey(key, k));
    }
  }

  /** The sort is stable: the elements with any one key appear in their original order. */
  lemma SortStable<T(!new)>(s: seq<T>, key: T -> real)
    ensures forall k :: Filter(SortBy(s, key), SameKey(key, k)) == Filter(s, SameKey(key, k))
  {
    forall k {
      SortStableAt(s, key, k);
    }
  }

  /** A sequence already in order is left as it is. */
  lemma {:induction false} SortSorted<T>(s: seq<T>, key: T -> real)
    requires SortedBy(s, key)
    ensures SortBy(s, key) == s
  {
    if s != [] {
      SortSorted(s[1..], key);
    }
  }
}
