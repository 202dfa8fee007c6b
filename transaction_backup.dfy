/**
  Finance/LocalStorage/TransactionBackup.swift: the outbox of transaction
  operations made while offline, a SwiftData table of `BackupTransaction`s
  keyed by their unique `UUID`. The fetch of `allBackups` has no sort
  descriptor, so no order is promised; the model returns table order.
*/
module TransactionBackupModule {
  import opened Wrappers
  import opened Structs
  import opened BackupModels
  import opened Tables

  /** `add(action:transaction:)` on the table. */
  function Added(es: seq<BackupTransaction>, id: Uuid, action: Action, t: Transaction): (r: seq<BackupTransaction>)
    ensures UniqueKeys(es, TransactionBackupId) ==> UniqueKeys(r, TransactionBackupId)
    ensures !HasKey(es, TransactionBackupId, id) ==> r == es + [MakeBackupTransaction(id, action, t)]
  {
    Upsert(es, TransactionBackupId, MakeBackupTransaction(id, action, t))
  }

  /** With a fresh id the log grows by exactly one entry, which carries the action and the transaction. */
  lemma AddedEntry(es: seq<BackupTransaction>, id: Uuid, action: Action, t: Transaction)
    requires !HasKey(es, TransactionBackupId, id)
    ensures var r := Added(es, id, action, t);
      |r| == |es| + 1 && r[..|es|] == es
      && ActionType(r[|es|]) == Some(action) && BackupToTransaction(r[|es|]) == Some(t)
      && forall i :: 0 <= i < |es| ==> es[i].id != r[|es|].id
  {
    BackupTransactionReadsBack(id, action, t);
    var r := Added(es, id, action, t);
    assert r[..|es|] == es;
  }

  /** `remove(id:)` on the table. */
  function Removed(es: seq<BackupTransaction>, id: Uuid): (r: seq<BackupTransaction>)
    ensures !HasKey(es, TransactionBackupId, id) ==> r == es
    ensures UniqueKeys(es, TransactionBackupId) ==>
      UniqueKeys(r, TransactionBackupId) && r == Filter(es, KeyIsNot(TransactionBackupId, id))
  {
    RemoveFirstWhenUnique(es, TransactionBackupId, id);
    RemoveFirst(es, TransactionBackupId, id)
  }

  class TransactionBackupStorage {
    var entries: seq<BackupTransaction>

    ghost predicate Valid()
      reads this
    {
      UniqueKeys(entries, TransactionBackupId)
    }

    constructor ()
      ensures Valid() && entries == []
    {
      entries := [];
    }

    method AllBackups() returns (bs: seq<BackupTransaction>)
      ensures bs == entries
    {
      bs := entries;
    }

    /** `id` stands for the `UUID()` drawn by `BackupTransaction.init`. */
    method Add(id: Uuid, action: Action, t: Transaction)
      requires Valid()
      modifies this
      ensures Valid()
      ensures entries == Added(old(entries), id, action, t)
    {
      entries := Added(entries, id, action, t);
    }

    method Remove(id: Uuid)
      requires Valid()
      modifies this
      ensures Valid()
      ensures entries == Removed(old(entries), id)
      ensures forall b :: b in entries <==> b in old(entries) && b.id != id
    {
      entries := Removed(entries, id);
    }
  }
}
