/**
  Finance/LocalStorage/TransactionStorage.swift: the local mirror of the
  transactions, a SwiftData table of `TransactionRecord`s keyed by a unique id.
  The table is a sequence of records in fetch order; inserting a record whose
  id is already present replaces that record, as SwiftData does for a unique
  attribute.
*/
module TransactionStorageModule {
  import opened Wrappers
  import opened Structs
  import opened SwiftDataModels
  import opened Tables

  predicate InRange(r: TransactionRecord, from: int, to: int) {
    from <= r.transactionDate <= to
  }

  /** The fetch of `getTransactions(from:to:)`: the date filter applies only when both bounds are given. */
  function Selected(rs: seq<TransactionRecord>, from: Option<int>, to: Option<int>): (r: seq<TransactionRecord>)
    ensures from.None? || to.None? ==> r == rs
    ensures from.Some? && to.Some? ==>
      forall x :: x in r <==> x in rs && from.value <= x.transactionDate <= to.value
    ensures IsSublist(r, rs)
  {
    if from.Some? && to.Some? then
      FilterIsSublist(rs, x => InRange(x, from.value, to.value));
      Filter(rs, x => InRange(x, from.value, to.value))
    else
      SublistRefl(rs);
      rs
  }

  /** Reading the selected records gives the stored transactions whose date lies in the closed range, in order. */
  lemma SelectedTransactions(rs: seq<TransactionRecord>, from: int, to: int)
    ensures Map(Selected(rs, Some(from), Some(to)), ToTransaction)
         == Filter(Map(rs, ToTransaction), (t: Transaction) => from <= t.transactionDate <= to)
  {
    MapFilter(rs, ToTransaction, x => InRange(x, from, to), (t: Transaction) => from <= t.transactionDate <= to);
  }

  /** `modelContext.insert` of the record for `t`: the record with t's id is replaced, or the record is appended. */
  function Inserted(rs: seq<TransactionRecord>, t: Transaction): (r: seq<TransactionRecord>)
    ensures FromTransaction(t) in r
    ensures UniqueKeys(rs, RecordId) ==> UniqueKeys(r, RecordId)
    ensures HasKey(rs, RecordId, t.id) ==> |r| == |rs|
    ensures !HasKey(rs, RecordId, t.id) ==> r == rs + [FromTransaction(t)]
  {
    Upsert(rs, RecordId, FromTransaction(t))
  }

  /** The field assignments `update(transaction:)` makes on the fetched record. */
  function ApplyUpdate(existing: TransactionRecord, t: Transaction): TransactionRecord {
    existing.(account := t.accountId, category := t.categoryId, amount := t.amount,
              transactionDate := t.transactionDate, comment := t.comment,
              createdAt := t.createdAt, updatedAt := t.updatedAt)
  }

  /** On the record with t's id, the assignments leave exactly the record built from t. */
  lemma ApplyUpdateIsRecord(existing: TransactionRecord, t: Transaction)
    requires existing.id == t.id
    ensures ApplyUpdate(existing, t) == FromTransaction(t)
  {
  }

  /** `update(transaction:)`: the first record with t's id takes t's fields; with no such record nothing changes. */
  function Updated(rs: seq<TransactionRecord>, t: Transaction): (r: seq<TransactionRecord>)
    ensures |r| == |rs|
    ensures !HasKey(rs, RecordId, t.id) ==> r == rs
    ensures forall i :: 0 <= i < |rs| ==> r[i].id == rs[i].id
    ensures UniqueKeys(rs, RecordId) ==> UniqueKeys(r, RecordId)
    ensures UniqueKeys(rs, RecordId) ==>
      forall i :: 0 <= i < |rs| ==> r[i] == if rs[i].id == t.id then FromTransaction(t) else rs[i]
  {
    FirstIndexFound(rs, RecordId, t.id);
    var i := FirstIndex(rs, RecordId, t.id);
    if i < |rs| then rs[i := ApplyUpdate(rs[i], t)] else rs
  }

  /** `delete(id:)`: the first record with that id goes; with no such record nothing changes. */
  function Deleted(rs: seq<TransactionRecord>, id: int): (r: seq<TransactionRecord>)
    ensures !HasKey(rs, RecordId, id) ==> r == rs
    ensures UniqueKeys(rs, RecordId) ==> UniqueKeys(r, RecordId) && !HasKey(r, RecordId, id)
    ensures UniqueKeys(rs, RecordId) ==> r == Filter(rs, KeyIsNot(RecordId, id))
  {
    RemoveFirstWhenUnique(rs, RecordId, id);
    RemoveFirst(rs, RecordId, id)
  }

  /** Deleting keeps every other record and removes every record with the id. */
  lemma DeletedKeepsOthers(rs: seq<TransactionRecord>, id: int)
    requires UniqueKeys(rs, RecordId)
    ensures forall x :: x in Deleted(rs, id) <==> x in rs && x.id != id
  {
  }

  class SwiftDataTransactionStorage {
    var records: seq<TransactionRecord>

    ghost predicate Valid()
      reads this
    {
      UniqueKeys(records, RecordId)
    }

    constructor ()
      ensures Valid() && records == []
    {
      records := [];
    }

    method GetAll() returns (ts: seq<Transaction>)
      ensures ts == Map(records, ToTransaction)
    {
      ts := Map(records, ToTransaction);
    }

    method GetTransactions(from: Option<int>, to: Option<int>) returns (ts: seq<Transaction>)
      ensures ts == Map(Selected(records, from, to), ToTransaction)
      ensures from.None? || to.None? ==> ts == Map(records, ToTransaction)
    {
      ts := Map(Selected(records, from, to), ToTransaction);
    }

    method Create(t: Transaction)
      requires Valid()
      modifies this
      ensures Valid()
      ensures records == Inserted(old(records), t)
      ensures ToTransaction(FromTransaction(t)) in Map(records, ToTransaction)
    {
      records := Inserted(records, t);
    }

    method Update(t: Transaction)
      requires Valid()
      modifies this
      ensures Valid()
      ensures records == Updated(old(records), t)
    {
      records := Updated(records, t);
    }

    method Delete(id: int)
      requires Valid()
      modifies this
      ensures Valid()
      ensures records == Deleted(old(records), id)
      ensures forall x :: x in records <==> x in old(records) && x.id != id
    {
      DeletedKeepsOthers(records, id);
      records := Deleted(records, id);
    }
  }
}
