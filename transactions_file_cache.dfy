/**
  Finance/TransactionsFileCache.swift: an in-memory list of transactions in
  which no two share an id. `load` is modelled from the point where the file
  has been read and deserialised into a JSON array; reading and writing the
  file are not part of this model.
*/
module TransactionsFileCache {
  import opened Wrappers
  import opened Json
  import opened Structs
  import opened Tables

  function TxId(t: Transaction): int {
    t.id
  }

  /** `compactMap { Transaction.parse(jsonObject: $0) }`. */
  function ParseAll(arr: seq<JsonValue>): seq<Transaction> {
    CompactMap(arr, ParseTransaction)
  }

  /** The first element for each key, in order: what the `load` loop builds. */
  function FirstPerKey<T>(s: seq<T>, key: T -> int): seq<T> {
    if s == [] then []
    else
      var kept := FirstPerKey(s[..|s| - 1], key);
      var x := s[|s| - 1];
      if HasKey(kept, key, key(x)) then kept else kept + [x]
  }

  /** Every kept element comes from the input, and every key of the input is kept. */
  lemma {:induction false} FirstPerKeyKeys<T>(s: seq<T>, key: T -> int)
    ensures forall x :: x in FirstPerKey(s, key) ==> x in s
    ensures forall k :: 0 <= k < |s| ==> HasKey(FirstPerKey(s, key), key, key(s[k]))
  {
    if s != [] {
      var init := s[..|s| - 1];
      var kept := FirstPerKey(init, key);
      FirstPerKeyKeys(init, key);
      assert s == init + [s[|s| - 1]];
      var r := FirstPerKey(s, key);
      assert forall i :: 0 <= i < |kept| ==> r[i] == kept[i];
      forall k | 0 <= k < |s|
        ensures HasKey(r, key, key(s[k]))
      {
        if k < |init| {
          assert s[k] == init[k];
          var i :| 0 <= i < |kept| && key(kept[i]) == key(init[k]);
          assert key(r[i]) == key(s[k]);
        } else if !HasKey(kept, key, key(s[k])) {
          assert r[|kept|] == s[k];
        }
      }
    }
  }

  /** No two kept elements share a key. */
  lemma {:induction false} FirstPerKeyUnique<T>(s: seq<T>, key: T -> int)
    ensures UniqueKeys(FirstPerKey(s, key), key)
  {
    if s != [] {
      var init := s[..|s| - 1];
      FirstPerKeyUnique(init, key);
      if !HasKey(FirstPerKey(init, key), key, key(s[|s| - 1])) {
        AppendKeepsUnique(FirstPerKey(init, key), key, s[|s| - 1]);
      }
    }
  }

  /** Each kept element is the first element of the input with its key. */
  lemma {:induction false} FirstPerKeyFirst<T>(s: seq<T>, key: T -> int)
    ensures forall x :: x in FirstPerKey(s, key) ==>
      FirstIndex(s, key, key(x)) < |s| && x == s[FirstIndex(s, key, key(x))]
  {
    if s != [] {
      var init := s[..|s| - 1];
      var x := s[|s| - 1];
      var kept := FirstPerKey(init, key);
      FirstPerKeyFirst(init, key);
      FirstPerKeyKeys(init, key);
      assert s == init + [x];
      FirstIndexPrefix(init, x, key);
      if !HasKey(kept, key, key(x)) {
        assert forall k :: 0 <= k < |init| ==> key(init[k]) != key(x);
        assert forall j :: 0 <= j < |init| ==> s[j] == init[j];
        FirstIndexLeast(s, key, key(x), |init|);
      }
      forall y | y in FirstPerKey(s, key)
        ensures FirstIndex(s, key, key(y)) < |s| && y == s[FirstIndex(s, key, key(y))]
      {
        if y in kept {
          assert FirstIndex(init, key, key(y)) < |init|;
        }
      }
    }
  }

  /** The kept elements stay in input order. */
  lemma {:induction false} FirstPerKeyOrder<T>(s: seq<T>, key: T -> int)
    ensures IsSublist(FirstPerKey(s, key), s)
  {
    if s != [] {
      var init := s[..|s| - 1];
      var x := s[|s| - 1];
      var kept := FirstPerKey(init, key);
      FirstPerKeyOrder(init, key);
      assert s == init + [x];
      if !HasKey(kept, key, key(x)) {
        SublistSnoc(kept, init, x);
      } else {
        SublistExtend(kept, init, x);
      }
    }
  }

  /** Appending an element leaves the first match of every key found in the prefix where it was. */
  lemma FirstIndexPrefix<T>(init: seq<T>, x: T, key: T -> int)
    ensures forall k :: FirstIndex(init, key, k) < |init| ==>
      FirstIndex(init + [x], key, k) == FirstIndex(init, key, k)
    ensures FirstIndex(init, key, key(x)) == |init| ==> FirstIndex(init + [x], key, key(x)) == |init|
  {
    var s := init + [x];
    forall k | FirstIndex(init, key, k) < |init|
      ensures FirstIndex(s, key, k) == FirstIndex(init, key, k)
    {
      var i := FirstIndex(init, key, k);
      assert s[i] == init[i];
      assert forall j :: 0 <= j < i ==> s[j] == init[j];
      FirstIndexLeast(s, key, k, i);
    }
    if FirstIndex(init, key, key(x)) == |init| {
      assert forall j :: 0 <= j < |init| ==> s[j] == init[j];
      FirstIndexLeast(s, key, key(x), |init|);
    }
  }

  /** An index holding the key with no earlier match is the first index. */
  lemma {:induction false} FirstIndexLeast<T>(s: seq<T>, key: T -> int, k: int, i: nat)
    requires i < |s| && key(s[i]) == k
    requires forall j :: 0 <= j < i ==> key(s[j]) != k
    ensures FirstIndex(s, key, k) == i
  {
    if i > 0 {
      FirstIndexLeast(s[1..], key, k, i - 1);
    }
  }

  lemma {:induction false} SublistSnoc<T>(r: seq<T>, s: seq<T>, x: T)
    requires IsSublist(r, s)
    ensures IsSublist(r + [x], s + [x])
  {
    if r == [] {
      SublistOfEnd(s, x);
      assert r + [x] == [x];
    } else if s != [] {
      assert (r + [x])[1..] == r[1..] + [x];
      assert (s + [x])[1..] == s[1..] + [x];
      if r[0] == s[0] {
        SublistSnoc(r[1..], s[1..], x);
      } else {
        SublistSnoc(r, s[1..], x);
      }
    }
  }

  lemma {:induction false} SublistOfEnd<T>(s: seq<T>, x: T)
    ensures IsSublist([x], s + [x])
  {
    if s != [] {
      assert (s + [x])[1..] == s[1..] + [x];
      SublistOfEnd(s[1..], x);
    } else {
      assert [x][1..] == [];
    }
  }

  lemma {:induction false} SublistExtend<T>(r: seq<T>, s: seq<T>, x: T)
    requires IsSublist(r, s)
    ensures IsSublist(r, s + [x])
  {
    if r != [] && s != [] {
      assert (s + [x])[1..] == s[1..] + [x];
      if r[0] == s[0] {
        SublistExtend(r[1..], s[1..], x);
      } else {
        SublistExtend(r, s[1..], x);
      }
    }
  }

  /** Parsing, then keeping the first element per key: distinct keys, every key that parsed, the first of each key, input order. */
  lemma ParseThenDedup<T, U>(arr: seq<T>, f: T -> Option<U>, key: U -> int)
    ensures var parsed := CompactMap(arr, f);
      var kept := FirstPerKey(parsed, key);
      UniqueKeys(kept, key)
      && (forall j :: 0 <= j < |arr| && f(arr[j]).Some? ==> HasKey(kept, key, key(f(arr[j]).value)))
      && (forall x :: x in kept ==> FirstIndex(parsed, key, key(x)) < |parsed| && x == parsed[FirstIndex(parsed, key, key(x))])
      && IsSublist(kept, parsed)
  {
    var parsed := CompactMap(arr, f);
    FirstPerKeyUnique(parsed, key);
    FirstPerKeyKeys(parsed, key);
    FirstPerKeyFirst(parsed, key);
    FirstPerKeyOrder(parsed, key);
    forall j | 0 <= j < |arr| && f(arr[j]).Some?
      ensures HasKey(FirstPerKey(parsed, key), key, key(f(arr[j]).value))
    {
      CompactMapKeeps(arr, f, j);
      var k :| 0 <= k < |parsed| && parsed[k] == f(arr[j]).value;
    }
  }

  /** What `load` keeps of a JSON array: distinct ids, every id that parsed, the first transaction of each id, file order. */
  lemma LoadedSpec(arr: seq<JsonValue>)
    requires forall i :: 0 <= i < |arr| ==> Serializable(arr[i])
    ensures var ts := FirstPerKey(ParseAll(arr), TxId);
      UniqueKeys(ts, TxId)
      && (forall j :: 0 <= j < |arr| && ParseTransaction(arr[j]).Some? ==> HasKey(ts, TxId, TxId(ParseTransaction(arr[j]).value)))
      && (forall t :: t in ts ==> FirstIndex(ParseAll(arr), TxId, TxId(t)) < |ParseAll(arr)| && t == ParseAll(arr)[FirstIndex(ParseAll(arr), TxId, TxId(t))])
      && IsSublist(ts, ParseAll(arr))
  {
    ParseThenDedup(arr, ParseTransaction, TxId);
  }

  class TransactionFileCache {
    var transactions: seq<Transaction>

    ghost predicate Valid()
      reads this
    {
      UniqueKeys(transactions, TxId)
    }

    constructor ()
      ensures Valid() && transactions == []
    {
      transactions := [];
    }

    method Add(t: Transaction)
      requires Valid()
      modifies this
      ensures Valid()
      ensures HasKey(old(transactions), TxId, t.id) ==> transactions == old(transactions)
      ensures !HasKey(old(transactions), TxId, t.id) ==> transactions == old(transactions) + [t]
    {
      if !HasKey(transactions, TxId, t.id) {
        AppendKeepsUnique(transactions, TxId, t);
        transactions := transactions + [t];
      }
    }

    method Remove(id: int)
      requires Valid()
      modifies this
      ensures Valid()
      ensures transactions == Filter(old(transactions), KeyIsNot(TxId, id))
      ensures IsSublist(transactions, old(transactions))
      ensures forall t :: t in transactions <==> t in old(transactions) && t.id != id
    {
      FilterKeepsUnique(transactions, KeyIsNot(TxId, id), TxId);
      FilterIsSublist(transactions, KeyIsNot(TxId, id));
      transactions := Filter(transactions, KeyIsNot(TxId, id));
    }

    /**
      `load(from:)`, given the file's contents as a JSON array, or `None` when
      reading the file or casting it to an array throws. The list is cleared
      before the read, so a failed load leaves it empty. An element that is
      neither an object nor an array makes `parse` trap, hence the precondition.
    */
    method Load(arr: Option<seq<JsonValue>>) returns (thrown: bool)
      requires arr.Some? ==> forall i :: 0 <= i < |arr.value| ==> Serializable(arr.value[i])
      modifies this
      ensures Valid()
      ensures thrown <==> arr.None?
      ensures arr.None? ==> transactions == []
      ensures arr.Some? ==> transactions == FirstPerKey(ParseAll(arr.value), TxId)
    {
      transactions := [];
      if arr.None? {
        return true;
      }
      thrown := false;
      var parsed := ParseAll(arr.value);
      var i := 0;
      while i < |parsed|
        invariant 0 <= i <= |parsed|
        invariant transactions == FirstPerKey(parsed[..i], TxId)
      {
        var t := parsed[i];
        assert parsed[..i + 1][..i] == parsed[..i];
        if !HasKey(transactions, TxId, t.id) {
          transactions := transactions + [t];
        }
        i := i + 1;
      }
      assert parsed[..i] == parsed;
      FirstPerKeyUnique(parsed, TxId);
    }
  }
}
