/**
  The outbox records of Finance/LocalStorage/BackupModels.swift: a
  `BackupTransaction` stores the action's raw value and the transaction's
  encoded data; a `BackupAccount` stores one account change. The encoded data
  is the encoder's keyed container (a `JsonObject`), not its bytes. A record's
  `UUID` is drawn by the caller and passed in as `id`; `Date()` is `now`.
*/
module BackupModels {
  import opened Wrappers
  import opened Decimals
  import opened Json
  import opened Structs

  type Uuid = int

  datatype Action = Create | Update | Delete

  function ActionRawValue(a: Action): string {
    match a
    case Create => "create"
    case Update => "update"
    case Delete => "delete"
  }

  /** `Action(rawValue:)`. */
  function ActionFromRaw(s: string): (r: Option<Action>)
    ensures r.Some? <==> s == "create" || s == "update" || s == "delete"
    ensures r.Some? ==> ActionRawValue(r.value) == s
  {
    if s == "create" then Some(Create)
    else if s == "update" then Some(Update)
    else if s == "delete" then Some(Delete)
    else None
  }

  /** The raw values are distinct and every one of them reads back as its action. */
  lemma ActionRawValues(a: Action, b: Action)
    ensures ActionFromRaw(ActionRawValue(a)) == Some(a)
    ensures ActionRawValue(a) == ActionRawValue(b) ==> a == b
  {
  }

  datatype BackupTransaction = BackupTransaction(id: Uuid, action: string, data: JsonObject)

  /** `BackupTransaction(action:transaction:)`. */
  function MakeBackupTransaction(id: Uuid, action: Action, t: Transaction): (b: BackupTransaction)
    ensures b.id == id
  {
    BackupTransaction(id, ActionRawValue(action), EncodeTransaction(t))
  }

  /** `toTransaction()`: nil when the data does not decode. */
  function BackupToTransaction(b: BackupTransaction): Option<Transaction> {
    DecodeTransaction(b.data)
  }

  /** `actionType`: nil for a stored string that names no action. */
  function ActionType(b: BackupTransaction): Option<Action> {
    ActionFromRaw(b.action)
  }

  /** A fresh backup reads back the action and the transaction it was built with. */
  lemma BackupTransactionReadsBack(id: Uuid, action: Action, t: Transaction)
    ensures ActionType(MakeBackupTransaction(id, action, t)) == Some(action)
    ensures BackupToTransaction(MakeBackupTransaction(id, action, t)) == Some(t)
  {
    TransactionRoundTrip(t);
  }

  /** A stored action string other than the three raw values has no action type. */
  lemma UnknownActionType(b: BackupTransaction)
    requires b.action != "create" && b.action != "update" && b.action != "delete"
    ensures ActionType(b) == None
  {
  }

  datatype AccountAction = ChangeCurrency | ChangeBalance | ChangeTransaction

  datatype BackupAccount = BackupAccount(
    id: Uuid,
    action: AccountAction,
    stringValue: Option<string>,
    decimalValue: Option<Decimal>,
    createdAt: int)

  function TransactionBackupId(b: BackupTransaction): int {
    b.id
  }

  function AccountBackupId(b: BackupAccount): int {
    b.id
  }
}
