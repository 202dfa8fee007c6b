/**
  The persisted record of a transaction (`TransactionStorage` in
  Finance/LocalStorage/SwiftDataModels.swift) and its two conversions.
  The record's `id` is the table's unique key.
*/
module SwiftDataModels {
  import opened Wrappers
  import opened Decimals
  import opened Structs

  datatype TransactionRecord = TransactionRecord(
    id: int,
    account: int,
    category: int,
    amount: Decimal,
    transactionDate: int,
    comment: Option<string>,
    createdAt: int,
    updatedAt: int)

  /** `TransactionStorage(from:)`. */
  function FromTransaction(t: Transaction): TransactionRecord {
    TransactionRecord(t.id, t.accountId, t.categoryId, t.amount, t.transactionDate, t.comment, t.createdAt, t.updatedAt)
  }

  /** `toTransaction()`: goes through the initializer whose comment is not optional, so a missing comment becomes "". */
  function ToTransaction(r: TransactionRecord): (t: Transaction)
    ensures t.comment.Some?
  {
    MakeTransaction(r.id, r.account, r.category, r.amount, r.transactionDate, r.comment.GetOr(""), r.createdAt, r.updatedAt)
  }

  function RecordId(r: TransactionRecord): int {
    r.id
  }

  /** The record keeps every field of the transaction, so the transaction can be read back from it. */
  lemma FromTransactionKeepsFields(t: Transaction)
    ensures var r := FromTransaction(t);
      r.id == t.id && r.account == t.accountId && r.category == t.categoryId && r.amount == t.amount
      && r.transactionDate == t.transactionDate && r.comment == t.comment
      && r.createdAt == t.createdAt && r.updatedAt == t.updatedAt
    ensures forall t' :: FromTransaction(t') == FromTransaction(t) ==> t' == t
  {
  }

  /** Storing and reading back keeps id, account, category, amount and the three dates; a comment survives, a nil one comes back as "". */
  lemma RecordRoundTrip(t: Transaction)
    ensures var u := ToTransaction(FromTransaction(t));
      u.id == t.id && u.accountId == t.accountId && u.categoryId == t.categoryId && u.amount == t.amount
      && u.transactionDate == t.transactionDate && u.createdAt == t.createdAt && u.updatedAt == t.updatedAt
    ensures t.comment.Some? ==> ToTransaction(FromTransaction(t)) == t
    ensures t.comment.None? ==> ToTransaction(FromTransaction(t)) == t.(comment := Some(""))
    ensures ToTransaction(FromTransaction(t)) == t <==> t.comment.Some?
  {
  }
}
