/**
  The domain values of Finance/Structs.swift: directions, currencies,
  categories, bank accounts and transactions, with their `Codable` field
  mappings modelled as functions to and from a keyed JSON container.
  Dates are whole seconds; `Character` is one Unicode scalar.
*/
module Structs {
  import opened Wrappers
  import opened Decimals
  import opened Json

  datatype Direction = Income | Outcome

  function DirectionRawValue(d: Direction): string {
    match d
    case Income => "income"
    case Outcome => "outcome"
  }

  datatype Currency = Rub | Usd | Eur

  function CurrencyRawValue(c: Currency): string {
    match c
    case Rub => "RUB"
    case Usd => "USD"
    case Eur => "EUR"
  }

  /** `Currency(rawValue:)`: exactly the three codes are known. */
  function CurrencyFromRaw(code: string): (r: Option<Currency>)
    ensures r.Some? <==> code == "RUB" || code == "USD" || code == "EUR"
    ensures r.Some? ==> CurrencyRawValue(r.value) == code
  {
    if code == "RUB" then Some(Rub)
    else if code == "USD" then Some(Usd)
    else if code == "EUR" then Some(Eur)
    else None
  }

  function Symbol(c: Currency): string {
    match c
    case Rub => "₽"
    case Usd => "$"
    case Eur => "€"
  }

  function FullName(c: Currency): string {
    match c
    case Rub => "Российский рубль ₽"
    case Usd => "Американский доллар $"
    case Eur => "Евро €"
  }

  /** Every currency's raw value decodes back to it, and its full name ends with its symbol. */
  lemma CurrencyTables(c: Currency)
    ensures CurrencyFromRaw(CurrencyRawValue(c)) == Some(c)
    ensures |FullName(c)| > |Symbol(c)| && FullName(c)[|FullName(c)| - |Symbol(c)|..] == Symbol(c)
  {
  }

  datatype Category = Category(id: int, name: string, direction: Direction, emoji: char)

  datatype BankAccount = BankAccount(
    id: int,
    userId: Option<int>,
    name: string,
    balance: Decimal,
    currency: string,
    createdAt: Option<int>,
    updatedAt: Option<int>)

  datatype Transaction = Transaction(
    id: int,
    accountId: int,
    categoryId: int,
    amount: Decimal,
    transactionDate: int,
    comment: Option<string>,
    createdAt: int,
    updatedAt: int)

  /** The memberwise initializer, whose `comment` argument is not optional. */
  function MakeTransaction(id: int, account: int, category: int, amount: Decimal, transactionDate: int,
                           comment: string, createdAt: int, updatedAt: int): (t: Transaction)
    ensures t.comment == Some(comment)
    ensures t.id == id && t.accountId == account && t.categoryId == category && t.amount == amount
    ensures t.transactionDate == transactionDate && t.createdAt == createdAt && t.updatedAt == updatedAt
  {
    Transaction(id, account, category, amount, transactionDate, Some(comment), createdAt, updatedAt)
  }

  // ---- Category coding ----

  function EncodeCategory(c: Category): JsonObject {
    map["id" := JInt(c.id), "name" := JString(c.name), "emoji" := JString([c.emoji]),
        "isIncome" := JBool(c.direction == Income)]
  }

  /** `emojiStr.first ?? "?"`. */
  function FirstOrQuestionMark(s: string): char {
    if s == [] then '?' else s[0]
  }

  function DecodeCategory(o: JsonObject): Option<Category> {
    var id := GetInt(o, "id");
    var name := GetString(o, "name");
    var emoji := GetString(o, "emoji");
    var isIncome := GetBool(o, "isIncome");
    if id.Some? && name.Some? && emoji.Some? && isIncome.Some? then
      Some(Category(id.value, name.value, if isIncome.value then Income else Outcome,
                    FirstOrQuestionMark(emoji.value)))
    else
      None
  }

  /** Direction travels as `isIncome` and the emoji as a one-character string; both come back unchanged. */
  lemma CategoryRoundTrip(c: Category)
    ensures EncodeCategory(c)["isIncome"] == JBool(c.direction == Income)
    ensures DecodeCategory(EncodeCategory(c)) == Some(c)
  {
  }

  /** An empty emoji string decodes to "?", a longer one to its first character. */
  lemma CategoryEmojiFallback(o: JsonObject, emoji: string)
    requires "emoji" in o && o["emoji"] == JString(emoji)
    requires DecodeCategory(o).Some?
    ensures emoji == [] ==> DecodeCategory(o).value.emoji == '?'
    ensures emoji != [] ==> DecodeCategory(o).value.emoji == emoji[0]
  {
  }

  /** `isIncome` true decodes to income, false to outcome. */
  lemma CategoryDirectionDecoding(o: JsonObject, isIncome: bool)
    requires "isIncome" in o && o["isIncome"] == JBool(isIncome)
    requires DecodeCategory(o).Some?
    ensures DecodeCategory(o).value.direction == (if isIncome then Income else Outcome)
  {
  }

  // ---- BankAccount coding ----

  function EncodeAccount(a: BankAccount): JsonObject {
    var base := map["id" := JInt(a.id), "name" := JString(a.name), "balance" := JString(Format(a.balance)),
                    "currency" := JString(a.currency)];
    var withUser := PutIfPresent(base, "userId", if a.userId.Some? then Some(JInt(a.userId.value)) else None);
    var withCreated := PutIfPresent(withUser, "createdAt", if a.createdAt.Some? then Some(JDate(a.createdAt.value)) else None);
    PutIfPresent(withCreated, "updatedAt", if a.updatedAt.Some? then Some(JDate(a.updatedAt.value)) else None)
  }

  function DecodeAccount(o: JsonObject): Option<BankAccount> {
    var id := GetInt(o, "id");
    var name := GetString(o, "name");
    var balance := GetString(o, "balance");
    var currency := GetString(o, "currency");
    if id.Some? && name.Some? && balance.Some? && currency.Some? then
      Some(BankAccount(id.value, GetInt(o, "userId"), name.value, ParseOrZero(balance.value), currency.value,
                       GetDate(o, "createdAt"), GetDate(o, "updatedAt")))
    else
      None
  }

  lemma AccountRoundTrip(a: BankAccount)
    ensures DecodeAccount(EncodeAccount(a)) == Some(a)
  {
    ParseFormat(a.balance);
    AccountRequiredFields(a);
    AccountOptionalFields(a);
  }

  lemma AccountRequiredFields(a: BankAccount)
    ensures var o := EncodeAccount(a);
      GetInt(o, "id") == Some(a.id) && GetString(o, "name") == Some(a.name)
      && GetString(o, "balance") == Some(Format(a.balance)) && GetString(o, "currency") == Some(a.currency)
  {
  }

  lemma AccountOptionalFields(a: BankAccount)
    ensures var o := EncodeAccount(a);
      GetInt(o, "userId") == a.userId && GetDate(o, "createdAt") == a.createdAt && GetDate(o, "updatedAt") == a.updatedAt
  {
  }

  /** A balance string that is not a number decodes to 0. */
  lemma AccountBalanceFallback(o: JsonObject, text: string)
    requires "balance" in o && o["balance"] == JString(text) && Parse(text).None?
    requires DecodeAccount(o).Some?
    ensures DecodeAccount(o).value.balance == Zero
  {
  }

  // ---- Transaction coding ----

  function EncodeTransaction(t: Transaction): JsonObject {
    var base := map["id" := JInt(t.id), "accountId" := JInt(t.accountId), "categoryId" := JInt(t.categoryId),
                    "amount" := JString(Format(t.amount)), "transactionDate" := JDate(t.transactionDate),
                    "createdAt" := JDate(t.createdAt), "updatedAt" := JDate(t.updatedAt)];
    PutIfPresent(base, "comment", if t.comment.Some? then Some(JString(t.comment.value)) else None)
  }

  function DecodeTransaction(o: JsonObject): Option<Transaction> {
    var id := GetInt(o, "id");
    var accountId := GetInt(o, "accountId");
    var categoryId := GetInt(o, "categoryId");
    var amount := GetString(o, "amount");
    var date := GetDate(o, "transactionDate");
    var createdAt := GetDate(o, "createdAt");
    var updatedAt := GetDate(o, "updatedAt");
    if id.Some? && accountId.Some? && categoryId.Some? && amount.Some? && date.Some?
       && createdAt.Some? && updatedAt.Some? then
      Some(Transaction(id.value, accountId.value, categoryId.value, ParseOrZero(amount.value), date.value,
                       GetString(o, "comment"), createdAt.value, updatedAt.value))
    else
      None
  }

  /** Encoding then decoding a transaction gives it back; a nil comment is written as no key at all. */
  lemma TransactionRoundTrip(t: Transaction)
    ensures t.comment.None? <==> "comment" !in EncodeTransaction(t)
    ensures DecodeTransaction(EncodeTransaction(t)) == Some(t)
  {
    ParseFormat(t.amount);
    TransactionKeyFields(t);
    TransactionDateFields(t);
  }

  lemma TransactionKeyFields(t: Transaction)
    ensures var o := EncodeTransaction(t);
      GetInt(o, "id") == Some(t.id) && GetInt(o, "accountId") == Some(t.accountId)
      && GetInt(o, "categoryId") == Some(t.categoryId) && GetString(o, "amount") == Some(Format(t.amount))
      && GetString(o, "comment") == t.comment
  {
  }

  lemma TransactionDateFields(t: Transaction)
    ensures var o := EncodeTransaction(t);
      GetDate(o, "transactionDate") == Some(t.transactionDate)
      && GetDate(o, "createdAt") == Some(t.createdAt) && GetDate(o, "updatedAt") == Some(t.updatedAt)
  {
  }

  /** An amount string that is not a number decodes to 0. */
  lemma TransactionAmountFallback(o: JsonObject, text: string)
    requires "amount" in o && o["amount"] == JString(text) && Parse(text).None?
    requires DecodeTransaction(o).Some?
    ensures DecodeTransaction(o).value.amount == Zero
  {
  }

  /** `Transaction.jsonObject`: the encoded container as a JSON object. */
  function JsonObjectOf(t: Transaction): (j: JsonValue)
    ensures j.JObject?
  {
    JObject(EncodeTransaction(t))
  }

  /**
    What `JSONSerialization.data(withJSONObject:)` accepts at the top level:
    an array or an object. Any other value raises an exception `try?` does
    not catch, so `parse` traps on it.
  */
  predicate Serializable(j: JsonValue) {
    j.JObject? || j.JArray?
  }

  /**
    `Transaction.parse(jsonObject:)` on a serialisable value: nil for an array
    and for an object without the required keys.
  */
  function ParseTransaction(j: JsonValue): Option<Transaction> {
    match j
    case JObject(o) => DecodeTransaction(o)
    case _ => None
  }

  /** `parse(jsonObject)` of a transaction's `jsonObject` gives back the transaction: id, amount and comment included. */
  lemma ParseOfJsonObject(t: Transaction)
    ensures ParseTransaction(JsonObjectOf(t)) == Some(t)
    ensures ParseTransaction(JsonObjectOf(t)).value.id == t.id
    ensures ParseTransaction(JsonObjectOf(t)).value.amount == t.amount
    ensures ParseTransaction(JsonObjectOf(t)).value.comment == t.comment
  {
    TransactionRoundTrip(t);
  }

  /** `parse` fails when a required key is missing. */
  lemma ParseNeedsRequiredKeys(o: JsonObject)
    requires exists k :: k in ["id", "accountId", "categoryId", "amount", "transactionDate", "createdAt", "updatedAt"]
                         && k !in o
    ensures ParseTransaction(JObject(o)) == None
  {
  }

  /** The object of the invalid-input test, `["invalidKey": "invalidValue"]`, parses to nil. */
  lemma ParseOfInvalidObject()
    ensures ParseTransaction(JObject(map["invalidKey" := JString("invalidValue")])) == None
  {
    var o := map["invalidKey" := JString("invalidValue")];
    assert "id" !in o;
  }
}
