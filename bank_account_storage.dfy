/**
  Finance/LocalStorage/BankAccountStorage.swift: the local mirror of the
  bank account. The persisted record keeps the balance as its decimal text;
  reading a record back parses that text, falling back to 0 as the account's
  own decoder does. The clock (`Date()`) is the parameter `now`.
*/
module BankAccountStorageModule {
  import opened Wrappers
  import opened Decimals
  import opened Structs
  import opened Tables

  datatype AccountRecord = AccountRecord(
    id: int,
    userId: Option<int>,
    name: string,
    balance: string,
    currency: string,
    createdAt: Option<int>,
    updatedAt: Option<int>)

  /** The errors thrown when the table holds no account. */
  datatype StorageError = NoAccountFound | NoAccountToUpdate

  function Description(e: StorageError): string {
    match e
    case NoAccountFound => "No account found in local storage"
    case NoAccountToUpdate => "No account to update"
  }

  function AccountRecordId(r: AccountRecord): int {
    r.id
  }

  /** `BankAccountStorage(from:)`: the balance is stored as `"\(balance)"`. */
  function FromAccount(a: BankAccount): AccountRecord {
    AccountRecord(a.id, a.userId, a.name, Format(a.balance), a.currency, a.createdAt, a.updatedAt)
  }

  function ToBankAccount(r: AccountRecord): BankAccount {
    BankAccount(r.id, r.userId, r.name, ParseOrZero(r.balance), r.currency, r.createdAt, r.updatedAt)
  }

  /** An account stored and read back is the same account, balance included. */
  lemma AccountRecordRoundTrip(a: BankAccount)
    ensures ToBankAccount(FromAccount(a)) == a
  {
    ParseFormat(a.balance);
  }

  /** `getAccount()`: the first stored account, or an error for an empty table. */
  function FirstAccount(rs: seq<AccountRecord>): (r: Result<BankAccount, StorageError>)
    ensures r.Failure? <==> rs == []
    ensures r.Failure? ==> r.error == NoAccountFound
    ensures r.Success? ==> r.value == ToBankAccount(rs[0])
  {
    if rs == [] then Failure(NoAccountFound) else Success(ToBankAccount(rs[0]))
  }

  /** `updateAccount(amount:currencyCode:)` on the table: new balance text, currency and update time on the first record. */
  function AccountUpdated(rs: seq<AccountRecord>, amount: Decimal, currencyCode: string, now: int): (r: Option<seq<AccountRecord>>)
    ensures r.None? <==> rs == []
    ensures r.Some? ==> |r.value| == |rs| && r.value[1..] == rs[1..]
  {
    if rs == [] then None
    else Some(rs[0 := rs[0].(balance := Format(amount), currency := currencyCode, updatedAt := Some(now))])
  }

  /** After an update the first account reads back with the new balance and currency and keeps its id, name, owner and creation date. */
  lemma AccountUpdatedReadsBack(rs: seq<AccountRecord>, amount: Decimal, currencyCode: string, now: int)
    requires rs != []
    ensures var a := FirstAccount(AccountUpdated(rs, amount, currencyCode, now).value).value;
      var before := ToBankAccount(rs[0]);
      a.balance == amount && a.currency == currencyCode && a.updatedAt == Some(now)
      && a.id == before.id && a.name == before.name && a.userId == before.userId && a.createdAt == before.createdAt
  {
    ParseFormat(amount);
  }

  /** `saveAccount(account:)`: overwrite the record with the account's id, or insert one. */
  function Saved(rs: seq<AccountRecord>, a: BankAccount): (r: seq<AccountRecord>)
    ensures HasKey(rs, AccountRecordId, a.id) ==> |r| == |rs|
    ensures !HasKey(rs, AccountRecordId, a.id) ==> r == rs + [FromAccount(a)]
    ensures FromAccount(a) in r
    ensures UniqueKeys(rs, AccountRecordId) ==> UniqueKeys(r, AccountRecordId)
    ensures forall i :: 0 <= i < |rs| && rs[i].id != a.id ==> r[i] == rs[i]
  {
    FirstIndexFound(rs, AccountRecordId, a.id);
    var i := FirstIndex(rs, AccountRecordId, a.id);
    if i < |rs| then
      var e := rs[i];
      var updated := e.(userId := a.userId, name := a.name, balance := Format(a.balance), currency := a.currency,
                        createdAt := a.createdAt, updatedAt := a.updatedAt);
      assert updated == FromAccount(a);
      ReplaceKeepsUnique(rs, AccountRecordId, i, updated);
      var r := rs[i := updated];
      assert r[i] == updated;
      r
    else
      AppendKeepsUnique(rs, AccountRecordId, FromAccount(a));
      rs + [FromAccount(a)]
  }

  /** Once saved, the account sits at its id and reads back exactly. */
  lemma SavedReadsBack(rs: seq<AccountRecord>, a: BankAccount)
    requires UniqueKeys(rs, AccountRecordId)
    ensures var r := Saved(rs, a);
      var i := FirstIndex(r, AccountRecordId, a.id);
      i < |r| && ToBankAccount(r[i]) == a
  {
    var r := Saved(rs, a);
    AccountRecordRoundTrip(a);
    var k :| 0 <= k < |r| && r[k] == FromAccount(a);
    FirstIndexFound(r, AccountRecordId, a.id);
    assert FirstIndex(r, AccountRecordId, a.id) == k;
  }

  class SwiftDataAccountStorage {
    var records: seq<AccountRecord>

    ghost predicate Valid()
      reads this
    {
      UniqueKeys(records, AccountRecordId)
    }

    constructor ()
      ensures Valid() && records == []
    {
      records := [];
    }

    method GetAccount() returns (r: Result<BankAccount, StorageError>)
      ensures r == FirstAccount(records)
    {
      if records == [] {
        r := Failure(NoAccountFound);
      } else {
        r := Success(ToBankAccount(records[0]));
      }
    }

    method UpdateAccount(amount: Decimal, currencyCode: string, now: int) returns (r: Result<(), StorageError>)
      requires Valid()
      modifies this
      ensures Valid()
      ensures r.Failure? <==> old(records) == []
      ensures r.Failure? ==> r.error == NoAccountToUpdate && records == old(records)
      ensures r.Success? ==> records == AccountUpdated(old(records), amount, currencyCode, now).value
    {
      if records == [] {
        r := Failure(NoAccountToUpdate);
        return;
      }
      var account := records[0];
      account := account.(balance := Format(amount), currency := currencyCode, updatedAt := Some(now));
      records := records[0 := account];
      r := Success(());
    }

    method SaveAccount(account: BankAccount)
      requires Valid()
      modifies this
      ensures Valid()
      ensures records == Saved(old(records), account)
    {
      records := Saved(records, account);
    }

    /** `getCurrentAccountId()`: the id of `getAccount()`, failing exactly when it fails. */
    method GetCurrentAccountId() returns (r: Result<int, StorageError>)
      ensures r.Failure? <==> FirstAccount(records).Failure?
      ensures r.Failure? ==> r.error == FirstAccount(records).error
      ensures r.Success? ==> r.value == FirstAccount(records).value.id
    {
      var account := GetAccount();
      if account.Failure? {
        r := Failure(account.error);
      } else {
        r := Success(account.value.id);
      }
    }
  }
}
