/**
  Finance/LocalStorage/BankAccountBackup.swift: the outbox of account changes
  made while offline, a SwiftData table of `BackupAccount`s keyed by their
  `UUID`. `allBackups` fetches them in ascending order of creation time.
*/
module BankAccountBackupModule {
  import opened Wrappers
  import opened Decimals
  import opened BackupModels
  import opened Tables
  import opened Sorting

  function CreatedKey(b: BackupAccount): real {
    b.createdAt as real
  }

  /** The `add*` methods: one new entry with the given action and value, the other value nil. */
  function NewEntry(id: Uuid, action: AccountAction, stringValue: Option<string>, decimalValue: Option<Decimal>, now: int): BackupAccount {
    BackupAccount(id, action, stringValue, decimalValue, now)
  }

  /** Inserting an entry with a fresh id appends exactly that entry. */
  lemma AddOneEntry(es: seq<BackupAccount>, e: BackupAccount)
    requires !HasKey(es, AccountBackupId, e.id)
    ensures Upsert(es, AccountBackupId, e) == es + [e]
    ensures UniqueKeys(es, AccountBackupId) ==> UniqueKeys(es + [e], AccountBackupId)
  {
  }

  /** `remove(id:)` on the table. */
  function Removed(es: seq<BackupAccount>, id: Uuid): (r: seq<BackupAccount>)
    ensures !HasKey(es, AccountBackupId, id) ==> r == es
    ensures UniqueKeys(es, AccountBackupId) ==>
      UniqueKeys(r, AccountBackupId) && r == Filter(es, KeyIsNot(AccountBackupId, id))
  {
    RemoveFirstWhenUnique(es, AccountBackupId, id);
    RemoveFirst(es, AccountBackupId, id)
  }

  class AccountBackupStorage {
    var entries: seq<BackupAccount>

    ghost predicate Valid()
      reads this
    {
      UniqueKeys(entries, AccountBackupId)
    }

    constructor ()
      ensures Valid() && entries == []
    {
      entries := [];
    }

    method AllBackups() returns (bs: seq<BackupAccount>)
      ensures bs == SortBy(entries, CreatedKey)
      ensures SortedBy(bs, CreatedKey) && multiset(bs) == multiset(entries)
    {
      bs := SortBy(entries, CreatedKey);
    }

    method Insert(e: BackupAccount)
      requires Valid()
      modifies this
      ensures Valid()
      ensures entries == Upsert(old(entries), AccountBackupId, e)
    {
      entries := Upsert(entries, AccountBackupId, e);
    }

    method AddChangeCurrency(id: Uuid, newCurrency: string, now: int)
      requires Valid()
      modifies this
      ensures Valid()
      ensures entries == Upsert(old(entries), AccountBackupId, NewEntry(id, ChangeCurrency, Some(newCurrency), None, now))
    {
      Insert(NewEntry(id, ChangeCurrency, Some(newCurrency), None, now));
    }

    method AddBalanceChange(id: Uuid, amount: Decimal, now: int)
      requires Valid()
      modifies this
      ensures Valid()
      ensures entries == Upsert(old(entries), AccountBackupId, NewEntry(id, ChangeBalance, None, Some(amount), now))
    {
      Insert(NewEntry(id, ChangeBalance, None, Some(amount), now));
    }

    method AddTransactionChange(id: Uuid, amountDelta: Decimal, now: int)
      requires Valid()
      modifies this
      ensures Valid()
      ensures entries == Upsert(old(entries), AccountBackupId, NewEntry(id, ChangeTransaction, None, Some(amountDelta), now))
    {
      Insert(NewEntry(id, ChangeTransaction, None, Some(amountDelta), now));
    }

    method Remove(id: Uuid)
      requires Valid()
      modifies this
      ensures Valid()
      ensures entries == Removed(old(entries), id)
      ensures forall b :: b in entries <==> b in old(entries) && b.id != id
    {
      entries := Removed(entries, id);
    }
  }
}
