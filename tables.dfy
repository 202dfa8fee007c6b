/**
  Sequence operations behind the SwiftData tables and the in-memory lists:
  a fetch with a predicate is `Filter`, a fetch by key takes the first match,
  and a table whose key is unique never holds two records with the same key.
*/
module Tables {
  import opened Wrappers

  /** The elements of `s` that satisfy `p`, in order. */
  function Filter<T(!new)>(s: seq<T>, p: T -> bool): (r: seq<T>)
    ensures |r| <= |s|
    ensures forall x :: x in r <==> x in s && p(x)
    ensures multiset(r) <= multiset(s)
  {
    if s == [] then []
    else
      var rest := Filter(s[1..], p);
      assert s == [s[0]] + s[1..];
      if p(s[0]) then [s[0]] + rest else rest
  }

  /** `r` is `s` with some elements dropped and the rest in their order. */
  predicate IsSublist<T(==)>(r: seq<T>, s: seq<T>) {
    if r == [] then true
    else if s == [] then false
    else if r[0] == s[0] then IsSublist(r[1..], s[1..])
    else IsSublist(r, s[1..])
  }

  /** Every sequence is a sublist of itself. */
  lemma {:induction false} SublistRefl<T>(s: seq<T>)
    ensures IsSublist(s, s)
  {
    if s != [] {
      SublistRefl(s[1..]);
    }
  }

  lemma {:induction false} FilterIsSublist<T(!new)>(s: seq<T>, p: T -> bool)
    ensures IsSublist(Filter(s, p), s)
  {
    if s != [] {
      FilterIsSublist(s[1..], p);
      var rest := Filter(s[1..], p);
      if !p(s[0]) {
        SublistOfTail(rest, s);
      }
    }
  }

  lemma {:induction false} SublistOfTail<T>(r: seq<T>, s: seq<T>)
    requires s != [] && IsSublist(r, s[1..])
    ensures IsSublist(r, s)
  {
    if r != [] && r[0] == s[0] {
      SublistDropHead(r, s[1..]);
    }
  }

  lemma {:induction false} SublistDropHead<T>(r: seq<T>, s: seq<T>)
    requires r != [] && IsSublist(r, s)
    ensures IsSublist(r[1..], s)
  {
    if s != [] {
      if r[0] == s[0] {
        if r[1..] != [] {
          SublistOfTail(r[1..], s);
        }
      } else {
        SublistDropHead(r, s[1..]);
        if r[1..] != [] {
          SublistOfTail(r[1..], s);
        }
      }
    }
  }

  /** Filtering with a predicate that every element satisfies changes nothing. */
  lemma {:induction false} FilterAll<T(!new)>(s: seq<T>, p: T -> bool)
    requires forall i :: 0 <= i < |s| ==> p(s[i])
    ensures Filter(s, p) == s
  {
    if s != [] {
      FilterAll(s[1..], p);
    }
  }

  /** Filters by two predicates that agree on every element are equal. */
  lemma {:induction false} FilterSame<T(!new)>(s: seq<T>, p: T -> bool, q: T -> bool)
    requires forall i :: 0 <= i < |s| ==> p(s[i]) == q(s[i])
    ensures Filter(s, p) == Filter(s, q)
  {
    if s != [] {
      FilterSame(s[1..], p, q);
    }
  }

  /** The two halves of a filter by a predicate and by its negation together hold every element once. */
  lemma {:induction false} FilterPartition<T(!new)>(s: seq<T>, p: T -> bool, q: T -> bool)
    requires forall x :: q(x) == !p(x)
    ensures multiset(Filter(s, p)) + multiset(Filter(s, q)) == multiset(s)
  {
    if s != [] {
      var x := s[0];
      FilterPartition(s[1..], p, q);
      HeadSplit(s);
      assert q(x) == !p(x);
      PartitionStep(x, Filter(s[1..], p), Filter(s[1..], q), s[1..], p(x));
    }
  }

  lemma HeadSplit<T>(s: seq<T>)
    requires s != []
    ensures s == [s[0]] + s[1..]
  {
  }

  lemma PartitionStep<T>(x: T, a: seq<T>, b: seq<T>, rest: seq<T>, left: bool)
    requires multiset(a) + multiset(b) == multiset(rest)
    ensures left ==> multiset([x] + a) + multiset(b) == multiset([x] + rest)
    ensures !left ==> multiset(a) + multiset([x] + b) == multiset([x] + rest)
  {
  }

  /** Dropping elements keeps keys unique. */
  lemma {:induction false} FilterKeepsUnique<T(!new)>(s: seq<T>, p: T -> bool, key: T -> int)
    requires UniqueKeys(s, key)
    ensures UniqueKeys(Filter(s, p), key)
  {
    if s != [] {
      var rest := Filter(s[1..], p);
      FilterKeepsUnique(s[1..], p, key);
      if p(s[0]) {
        var r := [s[0]] + rest;
        forall i, j | 0 <= i < j < |r|
          ensures key(r[i]) != key(r[j])
        {
          if i == 0 {
            assert r[j] in s[1..];
          }
        }
      }
    }
  }

  /** The elements of `s` transformed by `f`, in order (Swift's `map`). */
  function Map<T, U>(s: seq<T>, f: T -> U): (r: seq<U>)
    ensures |r| == |s|
    ensures forall i :: 0 <= i < |s| ==> r[i] == f(s[i])
  {
    if s == [] then [] else [f(s[0])] + Map(s[1..], f)
  }

  lemma {:induction false} MapFilter<T(!new), U(!new)>(s: seq<T>, f: T -> U, p: T -> bool, q: U -> bool)
    requires forall x :: p(x) == q(f(x))
    ensures Map(Filter(s, p), f) == Filter(Map(s, f), q)
  {
    if s != [] {
      MapFilter(s[1..], f, p, q);
      assert Map(s, f)[1..] == Map(s[1..], f);
    }
  }

  /** The defined results of `f` over `s`, in order (Swift's `compactMap`). */
  function CompactMap<T, U>(s: seq<T>, f: T -> Option<U>): (r: seq<U>)
    ensures |r| <= |s|
    ensures forall i :: 0 <= i < |r| ==> exists j :: 0 <= j < |s| && f(s[j]) == Some(r[i])
  {
    if s == [] then []
    else
      var rest := CompactMap(s[1..], f);
      assert forall i :: 0 <= i < |rest| ==> exists j :: 0 <= j < |s| && f(s[j]) == Some(rest[i]) by {
        forall i | 0 <= i < |rest|
          ensures exists j :: 0 <= j < |s| && f(s[j]) == Some(rest[i])
        {
          var j :| 0 <= j < |s[1..]| && f(s[1..][j]) == Some(rest[i]);
          assert f(s[j + 1]) == Some(rest[i]);
        }
      }
      match f(s[0])
      case Some(y) => [y] + rest
      case None => rest
  }

  /** Every defined result is kept. */
  lemma {:induction false} CompactMapKeeps<T, U>(s: seq<T>, f: T -> Option<U>, j: nat)
    requires j < |s| && f(s[j]).Some?
    ensures f(s[j]).value in CompactMap(s, f)
  {
    if j > 0 {
      CompactMapKeeps(s[1..], f, j - 1);
    }
  }

  /** The index of the first element whose key is `k`, or `|s|` when there is none. */
  function FirstIndex<T>(s: seq<T>, key: T -> int, k: int): (i: nat)
    ensures i <= |s|
    ensures i < |s| ==> key(s[i]) == k
    ensures forall j :: 0 <= j < i ==> key(s[j]) != k
  {
    if s == [] then 0
    else if key(s[0]) == k then 0
    else 1 + FirstIndex(s[1..], key, k)
  }

  predicate HasKey<T>(s: seq<T>, key: T -> int, k: int) {
    exists i :: 0 <= i < |s| && key(s[i]) == k
  }

  lemma FirstIndexFound<T>(s: seq<T>, key: T -> int, k: int)
    ensures FirstIndex(s, key, k) < |s| <==> HasKey(s, key, k)
  {
    if HasKey(s, key, k) {
      var i :| 0 <= i < |s| && key(s[i]) == k;
      assert FirstIndex(s, key, k) <= i;
    }
  }

  /** Each element of `ts` whose foreign key `fk` names an element of `cs`, paired with the first such element. */
  function JoinFirst<T, C>(ts: seq<T>, cs: seq<C>, fk: T -> int, key: C -> int): seq<(T, C)> {
    if ts == [] then []
    else
      var pairs := JoinFirst(ts[..|ts| - 1], cs, fk, key);
      var t := ts[|ts| - 1];
      var i := FirstIndex(cs, key, fk(t));
      if i < |cs| then pairs + [(t, cs[i])] else pairs
  }

  function Referenced<T, C>(cs: seq<C>, fk: T -> int, key: C -> int): T -> bool {
    t => HasKey(cs, key, fk(t))
  }

  function PairFirst<A, B>(p: (A, B)): A {
    p.0
  }

  lemma {:induction false} FilterSnoc<T(!new)>(s: seq<T>, x: T, p: T -> bool)
    ensures Filter(s + [x], p) == Filter(s, p) + (if p(x) then [x] else [])
  {
    if s == [] {
      assert [x][1..] == [];
    } else {
      assert (s + [x])[1..] == s[1..] + [x];
      FilterSnoc(s[1..], x, p);
    }
  }

  lemma {:induction false} MapSnoc<T, U>(s: seq<T>, x: T, f: T -> U)
    ensures Map(s + [x], f) == Map(s, f) + [f(x)]
  {
    if s == [] {
      assert [x][1..] == [];
    } else {
      assert (s + [x])[1..] == s[1..] + [x];
      MapSnoc(s[1..], x, f);
    }
  }

  /** Extending a prefix by one element extends its image by that element's image. */
  lemma MapPrefixStep<T, U>(s: seq<T>, k: nat, f: T -> U)
    requires k < |s|
    ensures Map(s[..k + 1], f) == Map(s[..k], f) + [f(s[k])]
  {
    assert s[..k + 1] == s[..k] + [s[k]];
    MapSnoc(s[..k], s[k], f);
  }

  lemma DropStep<T>(s: seq<T>, i: nat)
    requires i < |s|
    ensures s[i..] != [] && s[i..][0] == s[i] && s[i..][1..] == s[i + 1..]
  {
  }

  lemma PrefixAll<T>(s: seq<T>)
    ensures s[..|s|] == s
  {
  }

  lemma LastSplit<T>(s: seq<T>)
    requires s != []
    ensures s == s[..|s| - 1] + [s[|s| - 1]]
  {
  }

  /** The joined elements are those whose foreign key is found, in their order. */
  lemma {:induction false} JoinFirstLeft<T(!new), C>(ts: seq<T>, cs: seq<C>, fk: T -> int, key: C -> int)
    ensures Map(JoinFirst(ts, cs, fk, key), PairFirst) == Filter(ts, Referenced(cs, fk, key))
  {
    if ts != [] {
      var init := ts[..|ts| - 1];
      var t := ts[|ts| - 1];
      var p := Referenced(cs, fk, key);
      JoinFirstLeft(init, cs, fk, key);
      FirstIndexFound(cs, key, fk(t));
      LastSplit(ts);
      FilterSnoc(init, t, p);
      var i := FirstIndex(cs, key, fk(t));
      if i < |cs| {
        MapSnoc(JoinFirst(init, cs, fk, key), (t, cs[i]), PairFirst);
      }
    }
  }

  /** Each element is paired with the first element of `cs` having its foreign key. */
  lemma {:induction false} JoinFirstRight<T, C>(ts: seq<T>, cs: seq<C>, fk: T -> int, key: C -> int)
    ensures forall k :: 0 <= k < |JoinFirst(ts, cs, fk, key)| ==>
      var (t, c) := JoinFirst(ts, cs, fk, key)[k];
      FirstIndex(cs, key, fk(t)) < |cs| && c == cs[FirstIndex(cs, key, fk(t))]
  {
    if ts != [] {
      JoinFirstRight(ts[..|ts| - 1], cs, fk, key);
    }
  }

  /** No two elements share a key: the table's unique attribute. */
  predicate UniqueKeys<T>(s: seq<T>, key: T -> int) {
    forall i, j :: 0 <= i < j < |s| ==> key(s[i]) != key(s[j])
  }

  function RemoveAt<T>(s: seq<T>, i: nat): (r: seq<T>)
    requires i < |s|
    ensures |r| == |s| - 1
    ensures forall j :: 0 <= j < i ==> r[j] == s[j]
    ensures forall j :: i <= j < |r| ==> r[j] == s[j + 1]
  {
    s[..i] + s[i + 1..]
  }

  lemma RemoveAtHead<T>(s: seq<T>)
    requires s != []
    ensures RemoveAt(s, 0) == s[1..]
  {
  }

  lemma RemoveAtTail<T>(s: seq<T>, i: nat)
    requires 0 < i < |s|
    ensures RemoveAt(s, i) == [s[0]] + RemoveAt(s[1..], i - 1)
  {
    assert s[..i] == [s[0]] + s[1..][..i - 1];
    assert s[i + 1..] == s[1..][i..];
  }

  /** `s` without its first element whose key is `k`; `s` itself when there is none. */
  function RemoveFirst<T>(s: seq<T>, key: T -> int, k: int): (r: seq<T>)
    ensures !HasKey(s, key, k) ==> r == s
    ensures HasKey(s, key, k) ==> |r| == |s| - 1
  {
    FirstIndexFound(s, key, k);
    var i := FirstIndex(s, key, k);
    if i < |s| then RemoveAt(s, i) else s
  }

  /** The predicate "the key is not `k`". */
  function KeyIsNot<T>(key: T -> int, k: int): T -> bool {
    x => key(x) != k
  }

  /** Under unique keys, removing the first match removes exactly the element with that key and keeps the others in order. */
  lemma RemoveFirstUnique<T(!new)>(s: seq<T>, key: T -> int, k: int)
    requires UniqueKeys(s, key)
    ensures UniqueKeys(RemoveFirst(s, key, k), key)
    ensures !HasKey(RemoveFirst(s, key, k), key, k)
    ensures RemoveFirst(s, key, k) == Filter(s, KeyIsNot(key, k))
  {
    var r := RemoveFirst(s, key, k);
    var i := FirstIndex(s, key, k);
    FirstIndexFound(s, key, k);
    var p := KeyIsNot(key, k);
    if i < |s| {
      assert forall j :: 0 <= j < |s| && j != i ==> key(s[j]) != k;
      FilterSkip(s, p, i);
    } else {
      FilterAll(s, p);
    }
  }

  /** `RemoveFirstUnique` as an implication, for callers that do not know whether the keys are unique. */
  lemma RemoveFirstWhenUnique<T(!new)>(s: seq<T>, key: T -> int, k: int)
    ensures UniqueKeys(s, key) ==>
      UniqueKeys(RemoveFirst(s, key, k), key) && !HasKey(RemoveFirst(s, key, k), key, k)
      && RemoveFirst(s, key, k) == Filter(s, KeyIsNot(key, k))
  {
    if UniqueKeys(s, key) {
      RemoveFirstUnique(s, key, k);
    }
  }

  /** Filtering out exactly the element at `i` is removing it. */
  lemma {:induction false} FilterSkip<T(!new)>(s: seq<T>, p: T -> bool, i: nat)
    requires i < |s| && !p(s[i])
    requires forall j :: 0 <= j < |s| && j != i ==> p(s[j])
    ensures Filter(s, p) == RemoveAt(s, i)
  {
    if i == 0 {
      FilterAll(s[1..], p);
      RemoveAtHead(s);
    } else {
      FilterSkip(s[1..], p, i - 1);
      RemoveAtTail(s, i);
    }
  }

  /** Insertion into a table with a unique key: the element with x's key is replaced, or x is appended. */
  function Upsert<T>(s: seq<T>, key: T -> int, x: T): (r: seq<T>)
    ensures x in r
    ensures UniqueKeys(s, key) ==> UniqueKeys(r, key)
    ensures HasKey(s, key, key(x)) ==> |r| == |s|
    ensures !HasKey(s, key, key(x)) ==> r == s + [x]
    ensures forall i :: 0 <= i < |s| && key(s[i]) != key(x) ==> r[i] == s[i]
  {
    FirstIndexFound(s, key, key(x));
    var i := FirstIndex(s, key, key(x));
    if i < |s| then
      ReplaceKeepsUnique(s, key, i, x);
      var r := s[i := x];
      assert r[i] == x;
      r
    else
      AppendKeepsUnique(s, key, x);
      s + [x]
  }

  /** Replacing the element at `i` keeps every key when the new element has the old one's key. */
  lemma ReplaceKeepsUnique<T>(s: seq<T>, key: T -> int, i: nat, x: T)
    requires i < |s| && key(x) == key(s[i])
    ensures UniqueKeys(s, key) ==> UniqueKeys(s[i := x], key)
  {
  }

  lemma AppendKeepsUnique<T>(s: seq<T>, key: T -> int, x: T)
    requires !HasKey(s, key, key(x))
    ensures UniqueKeys(s, key) ==> UniqueKeys(s + [x], key)
  {
    var t := s + [x];
    if UniqueKeys(s, key) {
      forall i, j | 0 <= i < j < |t|
        ensures key(t[i]) != key(t[j])
      {
        if j == |s| {
          assert t[i] == s[i];
        }
      }
    }
  }
}
