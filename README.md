# FinanceApp core in Dafny

This project models the local bookkeeping and the small deterministic rules of
FinanceApp, an iOS personal-finance app written in Swift. It covers:

- **The temporary id generator.** A persisted counter handing out -1, -2, -3, ... for records created offline.
- **The local mirror tables.** SwiftData tables hold transactions, the bank account, categories, the transaction outbox and the account outbox.
  - Each `ModelContext` becomes a class whose table is a `seq` of record values.
  - `insert`, `delete` and field assignment become sequence updates.
  - A `fetch` with a predicate becomes a filter.
- **`TransactionFileCache`.** An id-deduplicating list of transactions.
- **The search.** `String.isSubsequence(of:)`, a case-insensitive subsequence test, and the category search built on it.
- **The Codable mappings of `Structs.swift`.** The JSON encoder and decoder are treated as a key→value record.
- **The status classification of `NetworkClient.request`.**
- **The view models' state rules.** These are:
  - the history join and its total, and date-range clamping and sorting
  - the balance and amount text sanitisers
  - the error policy for cancellation versus real errors

Representation choices:

- **`Decimal`** (`decimals.dfy`) is an exact normalised decimal `Dec(units, scale)`, standing for `units / 10^scale`.
  - `"\(d)"` is `Format` and `Decimal(string:)` is `Parse`.
  - `Parse(Format(d)) == Some(d)` is proved.
- **Dates** are integer seconds. `Calendar.startOfDay` is the floor to a day for a fixed zone offset (`Dates.StartOfDay`).
- **Passed in as parameters:** the services' answers (`Result<..., Failure>`), the clock (`now`), `UUID()` (`id`), the time zone (`zone`) and the locale's decimal separator (`sep`).

Modules follow the source files: one module per Swift file, plus shared modules:

- `Wrappers`, `Text`, `Decimals`, `Dates`, `Json`
- `Tables`: generic filter, map, join, upsert and remove over record sequences
- `Sorting`: an insertion sort specified by sortedness and permutation

## Model

| member | source | states |
|---|---|---|
| TemporaryIdGenerator.UserDefaults.Set | Finance/LocalStorage/TemporaryIdGenerator.swift:21 | the store maps the key to the value and every other key is unchanged |
| TemporaryIdGenerator.UserDefaults.RemoveObject | Finance/LocalStorage/TemporaryIdGenerator.swift:26 | the key is gone from the store, the rest is unchanged |
| TemporaryIdGenerator.NextId | Finance/LocalStorage/TemporaryIdGenerator.swift:19-20 | the new id is always ≤ -1; a stored value ≤ 0 (an empty store reads 0) gives -1; a stored n > 0 gives -(n+1), below -n |
| TemporaryIdGenerator.CounterAfterGenerate | Finance/LocalStorage/TemporaryIdGenerator.swift:20-21 | the counter written back is abs(id) ≥ 1, and generating from it yields exactly one less than the previous id |
| TemporaryIdGenerator.IdsFromEmpty | Finance/LocalStorage/TemporaryIdGenerator.swift:18-23 | from an empty store the k-th generated id is -(k+1), strictly decreasing |
| TemporaryIdGenerator.TemporaryIDGenerator.constructor | Finance/LocalStorage/TemporaryIdGenerator.swift:14-16 | the generator holds only the store it was given |
| TemporaryIdGenerator.TemporaryIDGenerator.Generate | Finance/LocalStorage/TemporaryIdGenerator.swift:18-23 | returns NextId of the stored counter and stores its absolute value under "lastTemporaryID", nothing else changes |
| TemporaryIdGenerator.TemporaryIDGenerator.Reset | Finance/LocalStorage/TemporaryIdGenerator.swift:25-27 | removes the key, so the counter reads 0 and the next id is -1 |
| TemporaryIdGenerator.SharedStoreScenario | Finance/LocalStorage/TemporaryIdGenerator.swift:10-27 | a second generator over the same store continues the sequence (-1, -2, then -3), and after reset the next id is -1 again |
| TransactionStorageModule.Selected | Finance/LocalStorage/TransactionStorage.swift:24-31 | with either bound missing every record; with both, exactly the records with from ≤ date ≤ to, in table order |
| TransactionStorageModule.SelectedTransactions | Finance/LocalStorage/TransactionStorage.swift:27-34 | converting the selected records equals filtering the converted transactions by the inclusive date range |
| TransactionStorageModule.Inserted | Finance/LocalStorage/TransactionStorage.swift:37-39 | the record of t is in the table afterwards; a new id appends it, an existing id keeps the size; ids stay unique |
| TransactionStorageModule.ApplyUpdateIsRecord | Finance/LocalStorage/TransactionStorage.swift:46-52 | assigning the seven fields to a record with the same id yields exactly the record built from t |
| TransactionStorageModule.Updated | Finance/LocalStorage/TransactionStorage.swift:43-55 | an absent id changes nothing; otherwise the record with t's id becomes t's record, the others and all ids are unchanged |
| TransactionStorageModule.Deleted | Finance/LocalStorage/TransactionStorage.swift:57-63 | an absent id changes nothing; with unique ids the result is the table without that id, order kept |
| TransactionStorageModule.DeletedKeepsOthers | Finance/LocalStorage/TransactionStorage.swift:57-63 | with unique ids, a record survives delete(id) exactly when its id differs from id |
| TransactionStorageModule.SwiftDataTransactionStorage.constructor | Finance/LocalStorage/TransactionStorage.swift:15-17 | the table starts empty |
| TransactionStorageModule.SwiftDataTransactionStorage.GetAll | Finance/LocalStorage/TransactionStorage.swift:19-22 | every stored record, converted |
| TransactionStorageModule.SwiftDataTransactionStorage.GetTransactions | Finance/LocalStorage/TransactionStorage.swift:24-35 | the converted selection; the same as getAll when a bound is nil |
| TransactionStorageModule.SwiftDataTransactionStorage.Create | Finance/LocalStorage/TransactionStorage.swift:37-41 | the table becomes Inserted(old, t), so getAll then contains t's stored form |
| TransactionStorageModule.SwiftDataTransactionStorage.Update | Finance/LocalStorage/TransactionStorage.swift:43-55 | the table becomes Updated(old, t) |
| TransactionStorageModule.SwiftDataTransactionStorage.Delete | Finance/LocalStorage/TransactionStorage.swift:57-63 | the table becomes Deleted(old, id): exactly the old records with another id remain |
| BankAccountStorageModule.AccountRecordRoundTrip | Finance/LocalStorage/BankAccountStorage.swift:25 | building the stored record from an account and reading it back gives the account |
| BankAccountStorageModule.FirstAccount | Finance/LocalStorage/BankAccountStorage.swift:17-26 | fails with "No account found" exactly when the table is empty, else the first record's account |
| BankAccountStorageModule.AccountUpdated | Finance/LocalStorage/BankAccountStorage.swift:28-39 | None exactly for an empty table; otherwise only the first record changes |
| BankAccountStorageModule.AccountUpdatedReadsBack | Finance/LocalStorage/BankAccountStorage.swift:34-36 | after the update the first account has the new balance, currency and updatedAt, and the same id, name, userId and createdAt |
| BankAccountStorageModule.Saved | Finance/LocalStorage/BankAccountStorage.swift:41-56 | an existing id keeps the size, a new id appends exactly one record; the account's record is present, other ids untouched, ids stay unique |
| BankAccountStorageModule.SavedReadsBack | Finance/LocalStorage/BankAccountStorage.swift:44-50 | after saveAccount some record reads back as exactly the saved account |
| BankAccountStorageModule.SwiftDataAccountStorage.constructor | Finance/LocalStorage/BankAccountStorage.swift:13-15 | the table starts empty |
| BankAccountStorageModule.SwiftDataAccountStorage.GetAccount | Finance/LocalStorage/BankAccountStorage.swift:17-26 | the result is FirstAccount of the table |
| BankAccountStorageModule.SwiftDataAccountStorage.UpdateAccount | Finance/LocalStorage/BankAccountStorage.swift:28-39 | fails with "No account to update" exactly when the table is empty, leaving it unchanged; otherwise the table is AccountUpdated |
| BankAccountStorageModule.SwiftDataAccountStorage.SaveAccount | Finance/LocalStorage/BankAccountStorage.swift:41-56 | the table becomes Saved(old, account) |
| BankAccountStorageModule.SwiftDataAccountStorage.GetCurrentAccountId | Finance/LocalStorage/BankAccountStorage.swift:58-61 | fails exactly when getAccount fails, with the same error; otherwise the first account's id |
| CategoriesStorageModule.CategoryRecordRoundTrip | Finance/LocalStorage/CategoriesStorage.swift:38 | a stored category reads back as itself |
| CategoriesStorageModule.StoredListReadsBack | Finance/LocalStorage/CategoriesStorage.swift:37-39 | storing a list of categories and reading it back gives the list |
| CategoriesStorageModule.ByDirection | Finance/LocalStorage/CategoriesStorage.swift:25-30 | filtering records by isIncome == (d == income) and converting equals filtering the converted categories by direction d |
| CategoriesStorageModule.DirectionsPartition | Finance/LocalStorage/CategoriesStorage.swift:19-30 | the income and the outcome categories together are all categories, as a multiset |
| CategoriesStorageModule.WithoutFirst | Finance/LocalStorage/CategoriesStorage.swift:36 | deleting a stored record removes one copy of it (multiset difference) and changes nothing when it is absent; deleting the front record leaves the rest, which is the case the delete loop uses |
| CategoriesStorageModule.SwiftDataCategoriesStorage.constructor | Finance/LocalStorage/CategoriesStorage.swift:15-17 | the table starts empty |
| CategoriesStorageModule.SwiftDataCategoriesStorage.GetAllCategories | Finance/LocalStorage/CategoriesStorage.swift:19-23 | every stored category, converted |
| CategoriesStorageModule.SwiftDataCategoriesStorage.GetCategories | Finance/LocalStorage/CategoriesStorage.swift:25-31 | exactly the stored categories of the given direction, in order |
| CategoriesStorageModule.SwiftDataCategoriesStorage.DeleteRecord | Finance/LocalStorage/CategoriesStorage.swift:36 | the table becomes WithoutFirst(old, r): one copy of r is deleted |
| CategoriesStorageModule.SwiftDataCategoriesStorage.SaveCategories | Finance/LocalStorage/CategoriesStorage.swift:33-42 | every previous record is gone and the table reads back exactly the given list (so an empty list empties it) |
| TransactionBackupModule.Added | Finance/LocalStorage/TransactionBackup.swift:22-27 | a fresh id appends exactly the new entry; ids stay unique |
| TransactionBackupModule.AddedEntry | Finance/LocalStorage/TransactionBackup.swift:22-27 | one entry more, earlier entries unchanged, and the new one carries the action and decodes to the transaction, with an id unlike any other |
| TransactionBackupModule.Removed | Finance/LocalStorage/TransactionBackup.swift:29-36 | an absent id changes nothing; with unique ids exactly the entries with other ids remain, in order |
| TransactionBackupModule.TransactionBackupStorage.constructor | Finance/LocalStorage/TransactionBackup.swift:14-16 | the log starts empty |
| TransactionBackupModule.TransactionBackupStorage.AllBackups | Finance/LocalStorage/TransactionBackup.swift:18-20 | every entry, in table order (no order is promised) |
| TransactionBackupModule.TransactionBackupStorage.Add | Finance/LocalStorage/TransactionBackup.swift:22-27 | the log becomes Added(old, id, action, t) |
| TransactionBackupModule.TransactionBackupStorage.Remove | Finance/LocalStorage/TransactionBackup.swift:29-36 | an entry remains exactly when its id differs from id |
| BankAccountBackupModule.AddOneEntry | Finance/LocalStorage/BankAccountBackup.swift:23-42 | inserting an entry with a fresh id appends exactly it and keeps ids unique |
| BankAccountBackupModule.Removed | Finance/LocalStorage/BankAccountBackup.swift:44-50 | an absent id changes nothing; with unique ids exactly the entries with other ids remain, in order |
| BankAccountBackupModule.AccountBackupStorage.constructor | Finance/LocalStorage/BankAccountBackup.swift:13-15 | the log starts empty |
| BankAccountBackupModule.AccountBackupStorage.AllBackups | Finance/LocalStorage/BankAccountBackup.swift:17-21 | the entries sorted ascending by createdAt, a permutation of the log |
| BankAccountBackupModule.AccountBackupStorage.Insert | Finance/LocalStorage/BankAccountBackup.swift:24-25 | inserting into the table with a unique id is an upsert by id |
| BankAccountBackupModule.AccountBackupStorage.AddChangeCurrency | Finance/LocalStorage/BankAccountBackup.swift:23-28 | inserts one changeCurrency entry whose stringValue is the new currency |
| BankAccountBackupModule.AccountBackupStorage.AddBalanceChange | Finance/LocalStorage/BankAccountBackup.swift:30-35 | inserts one changeBalance entry whose decimalValue is the amount |
| BankAccountBackupModule.AccountBackupStorage.AddTransactionChange | Finance/LocalStorage/BankAccountBackup.swift:37-42 | inserts one changeTransaction entry whose decimalValue is the delta |
| BankAccountBackupModule.AccountBackupStorage.Remove | Finance/LocalStorage/BankAccountBackup.swift:44-50 | an entry remains exactly when its id differs from id |
| BackupModels.ActionFromRaw | Finance/LocalStorage/BackupModels.swift:11-15 | Action(rawValue:) succeeds exactly for "create", "update" and "delete", and gives back the action whose raw value it read |
| BackupModels.ActionRawValues | Finance/LocalStorage/BackupModels.swift:11-15 | raw values round-trip and are distinct |
| BackupModels.MakeBackupTransaction | Finance/LocalStorage/BackupModels.swift:23-27 | the entry has the id it was given |
| BackupModels.BackupTransactionReadsBack | Finance/LocalStorage/BackupModels.swift:23-35 | a new entry's actionType is its action and toTransaction gives the transaction back |
| BackupModels.UnknownActionType | Finance/LocalStorage/BackupModels.swift:33-35 | any other stored action string gives a nil actionType |
| SwiftDataModels.ToTransaction | Finance/LocalStorage/SwiftDataModels.swift:33-44 | a record always reads back with a comment |
| SwiftDataModels.FromTransactionKeepsFields | Finance/LocalStorage/SwiftDataModels.swift:22-31 | init(from:) copies all eight fields, so distinct transactions give distinct records |
| SwiftDataModels.RecordRoundTrip | Finance/LocalStorage/SwiftDataModels.swift:22-44 | id, account, category, amount and the three dates survive; a comment survives, nil comes back as "", and the round trip is the identity exactly when there is a comment |
| TransactionsFileCache.FirstPerKeyKeys | Finance/TransactionsFileCache.swift:41-45 | the dedup keeps only parsed transactions, and every parsed id appears in it |
| TransactionsFileCache.FirstPerKeyUnique | Finance/TransactionsFileCache.swift:41-45 | the ids of the dedup result are pairwise distinct |
| TransactionsFileCache.FirstPerKeyFirst | Finance/TransactionsFileCache.swift:41-45 | each kept transaction is the first one in the list with its id |
| TransactionsFileCache.FirstPerKeyOrder | Finance/TransactionsFileCache.swift:41-45 | the dedup result is an order-preserving sublist of the parsed list |
| TransactionsFileCache.ParseThenDedup | Finance/TransactionsFileCache.swift:40-45 | after compactMap and dedup, ids are unique, every parsable element's id is present, each kept one is the first parse with its id, and order is kept |
| TransactionsFileCache.LoadedSpec | Finance/TransactionsFileCache.swift:33-45 | the same for Transaction.parse over the file's array, whose elements must be objects or arrays |
| TransactionsFileCache.TransactionFileCache.constructor | Finance/TransactionsFileCache.swift:13-15 | the list starts empty |
| TransactionsFileCache.TransactionFileCache.Add | Finance/TransactionsFileCache.swift:17-21 | appends t at the end when its id is new, else leaves the list unchanged; ids stay distinct |
| TransactionsFileCache.TransactionFileCache.Remove | Finance/TransactionsFileCache.swift:23-25 | removes every entry with the id, keeps the others in order |
| TransactionsFileCache.TransactionFileCache.Load | Finance/TransactionsFileCache.swift:33-45 | requires every element of the array to be an object or an array, because parse traps on any other value; clears the list; it throws exactly when the file is not a readable array, and then the list stays empty; otherwise it holds exactly the first parse for each id, in file order; ids distinct |
| SubsequenceSearch.GreedyEmbedding | Finance/SubsequenceSearch.swift:11-22 | when the greedy scan succeeds, there is an increasing map of the receiver's characters to equal-lowercase characters of other |
| SubsequenceSearch.EmbeddingMatches | Finance/SubsequenceSearch.swift:11-22 | any such map makes the greedy scan succeed |
| SubsequenceSearch.MatchesIffSubsequence | Finance/SubsequenceSearch.swift:9-23 | the scan succeeds exactly when the receiver is a case-insensitive subsequence of other |
| SubsequenceSearch.MatchesLength | Finance/SubsequenceSearch.swift:13-23 | a receiver longer than other never matches |
| SubsequenceSearch.MatchesSelf | Finance/SubsequenceSearch.swift:11-22 | every string is a subsequence of itself |
| SubsequenceSearch.MatchesStep | Finance/SubsequenceSearch.swift:13-21 | one step of the loop: a lowercase match advances both indices, otherwise only the index into other |
| SubsequenceSearch.IsSubsequence | Finance/SubsequenceSearch.swift:9-23 | the while loop returns true exactly for a case-insensitive subsequence (true for an empty receiver, false for a longer one), reading self only below its end |
| Text.LowerIdempotent | Finance/SubsequenceSearch.swift:14 | lowercasing twice is lowercasing once |
| CategoriesViewModelModule.TrimLeading | Finance/Screens/CategoriesView/CategoriesViewModel.swift:42 | the result does not start with white space, and is empty exactly for an all-white-space string |
| CategoriesViewModelModule.TrimTrailing | Finance/Screens/CategoriesView/CategoriesViewModel.swift:42 | a prefix of the input not ending in white space, empty exactly for an all-white-space string |
| CategoriesViewModelModule.Trim | Finance/Screens/CategoriesView/CategoriesViewModel.swift:42 | empty exactly when every character is white space or a newline; otherwise neither end is |
| CategoriesViewModelModule.SearchResult | Finance/Screens/CategoriesView/CategoriesViewModel.swift:41-49 | the shown categories are always an order-preserving sublist of all categories |
| CategoriesViewModelModule.BlankSearchShowsAll | Finance/Screens/CategoriesView/CategoriesViewModel.swift:42-43 | an empty or white-space-only search shows every category |
| CategoriesViewModelModule.SearchKeepsMatches | Finance/Screens/CategoriesView/CategoriesViewModel.swift:44-47 | otherwise the result is exactly all categories filtered by "the untrimmed search text is a case-insensitive subsequence of the name", every copy kept, in order |
| CategoriesViewModelModule.SearchUsesUntrimmedText | Finance/Screens/CategoriesView/CategoriesViewModel.swift:42-46 | " a" is not blank, yet it does not find the category "a" that "a" finds |
| CategoriesViewModelModule.CategoriesViewModel.constructor | Finance/Screens/CategoriesView/CategoriesViewModel.swift:14-23 | the published fields start at their declared defaults |
| CategoriesViewModelModule.CategoriesViewModel.ApplySearch | Finance/Screens/CategoriesView/CategoriesViewModel.swift:41-49 | categories becomes the search result of allCategories, nothing else changes |
| CategoriesViewModelModule.CategoriesViewModel.Load | Finance/Screens/CategoriesView/CategoriesViewModel.swift:25-39 | success stores the (name, emoji) pairs and applies the search; cancellation leaves error nil, any other error sets its description; isLoading is false at the end |
| Structs.CurrencyFromRaw | Finance/Structs.swift:15-18 | Currency(rawValue:) succeeds exactly for RUB, USD and EUR and inverts rawValue |
| Structs.CurrencyTables | Finance/Structs.swift:15-34 | raw values round-trip, and each full name ends with the currency's symbol |
| Structs.MakeTransaction | Finance/Structs.swift:130-139 | the initializer stores each argument in its field, the comment as present |
| Structs.CategoryRoundTrip | Finance/Structs.swift:54-69 | isIncome is encoded as direction == income, and decoding an encoded category gives it back (direction and emoji included) |
| Structs.CategoryEmojiFallback | Finance/Structs.swift:58-59 | the decoded emoji is the first character of the string, "?" for an empty one |
| Structs.CategoryDirectionDecoding | Finance/Structs.swift:60 | isIncome true decodes to income, false to outcome |
| Structs.AccountRoundTrip | Finance/Structs.swift:95-117 | decoding an encoded bank account gives it back |
| Structs.AccountRequiredFields | Finance/Structs.swift:107-112 | the encoding holds id, name, the balance as its "\(balance)" text and currency |
| Structs.AccountOptionalFields | Finance/Structs.swift:114-116 | userId, createdAt and updatedAt are present exactly when set |
| Structs.AccountBalanceFallback | Finance/Structs.swift:100-101 | a balance string that is not a number decodes to 0 |
| Structs.TransactionRoundTrip | Finance/Structs.swift:145-168 | a nil comment is encoded without a comment key, and decoding an encoded transaction gives it back |
| Structs.TransactionKeyFields | Finance/Structs.swift:158-165 | the encoding holds id, accountId, categoryId, the amount text and the comment if present |
| Structs.TransactionDateFields | Finance/Structs.swift:164-167 | the encoding holds the three dates |
| Structs.TransactionAmountFallback | Finance/Structs.swift:150-151 | an amount string that is not a number decodes to 0 |
| Structs.JsonObjectOf | Finance/Structs.swift:181-187 | jsonObject is always a JSON object |
| Structs.ParseOfJsonObject | Finance/Structs.swift:171-187 | parse(jsonObject) gives the transaction back, in particular its id, amount and comment |
| Structs.ParseNeedsRequiredKeys | Finance/Structs.swift:172-179 | an object missing any required key parses to nil |
| Structs.ParseOfInvalidObject | FinanceTests/ParseTests.swift:30-34 | the object {"invalidKey": "invalidValue"} parses to nil |
| NetworkClient.ErrorDescription | Finance/Model/NetworkClient.swift:20-38 | every declared error has its text; only noInternet has none |
| NetworkClient.ServerErrorsReadAlike | Finance/Model/NetworkClient.swift:29-30 | every server error reads "Ошибка сервера." whatever its code |
| NetworkClient.ClassifyStatus | Finance/Model/NetworkClient.swift:96-105 | 200..<300 proceeds; 401 is unauthorized ahead of the 4xx range; any other 400..<600 is serverError with that status; everything else is unknownError; each an if-and-only-if |
| NetworkClient.ClassifyStatusErrors | Finance/Model/NetworkClient.swift:96-105 | a rejected status yields one of the three errors |
| NetworkClient.EncodingFailsFirst | Finance/Model/NetworkClient.swift:72-80 | a body that fails to encode fails with encodingError whatever the network would do |
| NetworkClient.TransportErrors | Finance/Model/NetworkClient.swift:84-90 | a cancelled URLError becomes a cancellation, any other is rethrown |
| NetworkClient.StatusErrors | Finance/Model/NetworkClient.swift:96-105 | a status outside 200..<300 fails with its classification before any decoding |
| NetworkClient.NoContent | Finance/Model/NetworkClient.swift:107-113 | 204 succeeds exactly when EmptyResponse is expected, and is a decodingError otherwise |
| NetworkClient.DecodedReply | Finance/Model/NetworkClient.swift:115-121 | any other success succeeds exactly when the body decodes, with the decoded value |
| Decimals.Neg | Finance/Structs.swift:151 | negation negates the exact value |
| Decimals.Add | Finance/Screens/HistoryView/HistoryViewModel.swift:39 | the sum's exact value is the sum of the exact values |
| Decimals.SumValue | Finance/Screens/HistoryView/HistoryViewModel.swift:36-41 | folding Add over a list gives the exact sum of the values |
| Decimals.NormalUnique | Finance/Screens/AccountView/AccountViewModel.swift:59 | two decimals with the same value are equal, so == on the model is Decimal's numeric equality |
| Decimals.ParseFormat | Finance/Structs.swift:100-111 | Decimal(string:) of "\(d)" is d |
| Decimals.ParseRejects | Finance/Screens/EditDeleteView/EditDeleteViewModel.swift:145 | a character that is not a digit, the separator or a leading sign makes the text unparsable |
| Decimals.ParseAccepts | Finance/Screens/EditDeleteView/EditDeleteViewModel.swift:145 | digits with at most one separator and at least one digit always parse |
| Dates.StartOfDay | Finance/Screens/HistoryView/HistoryViewModel.swift:45-46 | the start of the day is at or before t, less than a day before it, and at a midnight of the zone |
| Dates.StartOfDayOfSameDay | Finance/Screens/HistoryView/HistoryViewModel.swift:50-56 | any instant within a day has that day's start |
| Dates.AtTime | Finance/Screens/HistoryView/HistoryViewModel.swift:56 | setting the time of day stays within the same day, and the result is exactly hour:minute:second after that day's start |
| Text.Keep | Finance/Screens/AccountView/AccountViewModel.swift:75 | filter keeps only characters satisfying the predicate |
| Text.KeepMembers | Finance/Screens/AccountView/AccountViewModel.swift:75 | a character is in the filtered text exactly when it is in the text and allowed |
| Text.ReplaceChar | Finance/Screens/AccountView/AccountViewModel.swift:76 | replacing keeps the length and leaves no replaced character |
| Text.SplitCount | Finance/Screens/AccountView/AccountViewModel.swift:77-78 | components(separatedBy:) has one part more than there are separators |
| Text.ConcatSplit | Finance/Screens/AccountView/AccountViewModel.swift:79 | joining the parts gives the text without separators |
| Tables.FilterPartition | Finance/LocalStorage/CategoriesStorage.swift:25-30 | a predicate's filter and its complement's filter together are the whole list, as a multiset |
| Tables.FilterIsSublist | Finance/LocalStorage/TransactionStorage.swift:33-34 | a fetch with a predicate keeps table order |
| Tables.Upsert | Finance/LocalStorage/SwiftDataModels.swift:13 | inserting into a table with a unique id replaces the record of that id or appends, keeping ids unique and other records in place |
| Tables.RemoveFirstUnique | Finance/LocalStorage/TransactionStorage.swift:58-61 | with unique ids, deleting the first match removes every record with the id and keeps the rest in order |
| Tables.JoinFirstLeft | Finance/Screens/HistoryView/HistoryViewModel.swift:36-41 | the left sides of the join are exactly the elements that have a match, in order |
| Tables.JoinFirstRight | Finance/Screens/HistoryView/HistoryViewModel.swift:37 | each pair's right side is the first element with the matching key |
| Tables.FirstIndexFound | Finance/Screens/HistoryView/HistoryViewModel.swift:37 | first(where:) finds an element exactly when one has the key |
| Sorting.SortBy | Finance/Screens/HistoryView/HistoryViewModel.swift:67-74 | sorted(by:) is ordered by the key and a permutation of its input |
| Sorting.SortStable | Finance/Screens/HistoryView/HistoryViewModel.swift:67-74 | the sort is stable: for every key value, the elements with that key appear in the same order as in the input |
| Sorting.SortSorted | Finance/Screens/HistoryView/HistoryViewModel.swift:67-74 | sorting an already sorted list changes nothing |
| HistoryViewModelModule.JoinTransactions | Finance/Screens/HistoryView/HistoryViewModel.swift:36-41 | the joined transactions are exactly those having a category of their id, in order |
| HistoryViewModelModule.JoinCategories | Finance/Screens/HistoryView/HistoryViewModel.swift:37-38 | each transaction is paired with the first category of its id |
| HistoryViewModelModule.TotalSnoc | Finance/Screens/HistoryView/HistoryViewModel.swift:38-39 | appending an item adds its amount to the total |
| HistoryViewModelModule.TotalValue | Finance/Screens/HistoryView/HistoryViewModel.swift:30-39 | the total's exact value is the sum of the included amounts |
| HistoryViewModelModule.FilteredItems | Finance/Screens/HistoryView/HistoryViewModel.swift:67-74 | a permutation of the items, latest date first for .date and largest amount first for .amount; items with the same date (or amount) keep their original order |
| HistoryViewModelModule.ClampedRange | Finance/Screens/HistoryView/HistoryViewModel.swift:44-56 | nothing changes unless from's day is after to's day; then with flag from moves to the start of to's day, without it to moves to from's day; the new to lies on the new from's day, exactly 23 h 59 min after its start (23:59:00), so from ≤ to |
| HistoryViewModelModule.HistoryViewModel.constructor | Finance/Screens/HistoryView/HistoryViewModel.swift:21-27 | from is the start of the day a month ago, to is 23:59:00 today, no items, total 0, sorting by date |
| HistoryViewModelModule.HistoryViewModel.Load | Finance/Screens/HistoryView/HistoryViewModel.swift:29-42 | items become the join of the fetched transactions with the fetched categories, total the sum of their amounts |
| HistoryViewModelModule.HistoryViewModel.CheckDate | Finance/Screens/HistoryView/HistoryViewModel.swift:44-58 | an unchanged range leaves everything alone; a clamped range is stored and then reloaded |
| AccountViewModelModule.CurrencySymbol | Finance/Screens/AccountView/AccountViewModel.swift:18-22 | "" exactly for a missing account or an unknown code; ₽, $ and € for RUB, USD and EUR |
| AccountViewModelModule.CurrencyName | Finance/Screens/AccountView/AccountViewModel.swift:28-32 | "" exactly in the same cases, otherwise the currency's full name |
| AccountViewModelModule.FilteredSpec | Finance/Screens/AccountView/AccountViewModel.swift:74-76 | the filtered text holds only digits and '.', the same digits in order, and a '.' exactly when the input had a '.' or ',' |
| AccountViewModelModule.FormatBalanceShape | Finance/Screens/AccountView/AccountViewModel.swift:77-82 | the result is the filtered text with every '.' after the first removed |
| AccountViewModelModule.FirstDotOnlyDots | Finance/Screens/AccountView/AccountViewModel.swift:78-81 | one '.' is left when there was one, none otherwise |
| AccountViewModelModule.FirstDotOnlyDigits | Finance/Screens/AccountView/AccountViewModel.swift:79 | dropping the later separators keeps every other character in order |
| AccountViewModelModule.FormatBalanceSpec | Finance/Screens/AccountView/AccountViewModel.swift:73-84 | only digits and '.', at most one '.', present exactly when the input had a '.' or ',', and the input's digits kept in order |
| AccountViewModelModule.FormatBalanceIdempotent | Finance/Screens/AccountView/AccountViewModel.swift:73-84 | formatting a formatted text changes nothing |
| AccountViewModelModule.AccountViewModel.constructor | Finance/Screens/AccountView/AccountViewModel.swift:14-26 | the published fields start at their declared defaults |
| AccountViewModelModule.AccountViewModel.Load | Finance/Screens/AccountView/AccountViewModel.swift:38-50 | success stores the account; cancellation leaves error nil, other errors set it; isLoading is false after |
| AccountViewModelModule.AccountViewModel.UpdateAccount | Finance/Screens/AccountView/AccountViewModel.swift:56-71 | nothing is sent and nothing changes when the text does not parse or both amount and currency equal the account's; otherwise the parsed amount and currency code are sent, and the account or the error follow the two answers |
| AccountViewModelModule.AccountViewModel.FormatBalanceText | Finance/Screens/AccountView/AccountViewModel.swift:73-84 | the formatted text is FormatBalance of the old local text and the local text becomes it |
| EditDeleteViewModelModule.ButtonText | Finance/Screens/EditDeleteView/EditDeleteViewModel.swift:39-41 | "Сохранить" exactly when editing, "Создать" exactly when not |
| EditDeleteViewModelModule.DirectionText | Finance/Screens/EditDeleteView/EditDeleteViewModel.swift:43-45 | "Мои доходы" exactly for income, "Мои расходы" exactly for outcome |
| EditDeleteViewModelModule.DeleteText | Finance/Screens/EditDeleteView/EditDeleteViewModel.swift:47-49 | "Удалить доход" exactly for income, "Удалить расход" exactly for outcome |
| EditDeleteViewModelModule.AmountFiltered | Finance/Screens/EditDeleteView/EditDeleteViewModel.swift:137-138 | only digits and the separator are left |
| EditDeleteViewModelModule.SanitizedShape | Finance/Screens/EditDeleteView/EditDeleteViewModel.swift:141-144 | the sanitised text ends in the filtered text and is one '0' longer exactly when that starts with the separator; for a separator other than '0' it never starts with the separator and has the same number of separators |
| EditDeleteViewModelModule.InputChangeOutcome | Finance/Screens/EditDeleteView/EditDeleteViewModel.swift:134-152 | the input is refused exactly when the filtered text has two or more separators; otherwise an empty text clears amount and text, and any other is taken sanitised with its value, which always parses |
| EditDeleteViewModelModule.EditDeleteViewModel.constructor | Finance/Screens/EditDeleteView/EditDeleteViewModel.swift:51-73 | a selected transaction fills the form (isEditing, amount = prevAmount = its amount, its text, comment, date, category, id); otherwise an empty form dated now |
| EditDeleteViewModelModule.EditDeleteViewModel.Load | Finance/Screens/EditDeleteView/EditDeleteViewModel.swift:75-84 | success stores the categories, every failure sets the error text; isLoading false after; every other field is unchanged |
| EditDeleteViewModelModule.EditDeleteViewModel.Save | Finance/Screens/EditDeleteView/EditDeleteViewModel.swift:86-117 | false at once while loading; account failure sets the error; editing sends the edit; creating with no amount or category shows the alert and returns false; otherwise sends the new transaction; saved exactly when the call succeeds; only isLoading, error and isShowingAlert can change |
| EditDeleteViewModelModule.EditDeleteViewModel.Delete | Finance/Screens/EditDeleteView/EditDeleteViewModel.swift:119-132 | nothing while loading; a delete is sent exactly when amount and id are set; a failure sets the error; only isLoading and error can change |
| EditDeleteViewModelModule.EditDeleteViewModel.CheckInput | Finance/Screens/EditDeleteView/EditDeleteViewModel.swift:134-152 | refused input changes nothing, otherwise text and amount become the change InputChange describes; every other field, prevAmount included, is unchanged |
| EditDeleteViewModelModule.EditDeleteViewModel.UpdateDate | Finance/Screens/EditDeleteView/EditDeleteViewModel.swift:154-169 | fullDate lies on selectedDate's UTC day at selectedTime's UTC time of day; every other field is unchanged |
| IncomeViewModelModule.DirectionText | Finance/Screens/IncomeView/IncomeViewModel.swift:23-28 | "Доходы сегодня" exactly for income, "Расходы сегодня" exactly for outcome |
| IncomeViewModelModule.ListedSpec | Finance/Screens/IncomeView/IncomeViewModel.swift:73-76 | one item per transaction, in order, each with the placeholder category of id 0, and the total's value is the sum of the amounts |
| IncomeViewModelModule.ShownError | Finance/Screens/IncomeView/IncomeViewModel.swift:78-89 | no error text exactly for a cancellation or noInternet, the description otherwise |
| IncomeViewModelModule.TransactionsListViewModel.constructor | Finance/Screens/IncomeView/IncomeViewModel.swift:12-19 | the published fields start at their declared defaults |
| IncomeViewModelModule.TransactionsListViewModel.Load | Finance/Screens/IncomeView/IncomeViewModel.swift:42-90 | asks for today from midnight to 23:59:59; on success items and total as ListedSpec says and symbol "offline"; on failure no items, total 0 and the error ShownError gives; isLoading false after |

## Left out

- File reading and writing, `JSONSerialization` and the byte-level JSON encoders and decoders are not modelled. JSON is the `JsonValue` datatype and an object is a key→value map; `TransactionFileCache.save` and the file read of `load` are outside the model. `Load` takes the parsed array, or `None` when the read or the cast throws; the list is cleared first, so a failed load leaves it empty.
- ISO-8601 and reference-date encodings of `Date` are not modelled, because a date is an integer number of seconds (`JDate`). `Calendar` is a fixed zone offset with no daylight-saving changes.
- The remote services (`TransactionService.swift`, `BankAccountService.swift`, `CategoriesService.swift`), `URLSession` and request building are not modelled: their answers are parameters of the view-model methods. `NetworkClient.RequestOutcome` covers what `request` does with an answer.
- SwiftUI views, `PieChart.swift`, `AnalysisViewModel.swift` (floating point, `String(format:)`, detached tasks), `MockServices.swift` (commented out) and the storage protocols (declarations only) are left out because they hold no core logic.
- Concurrency (`async`, `Task`, `@MainActor`, `defer`) is flattened into sequential methods. `loadingTask`, `selectedTransaction`, `sheet` and `isChoosingCategory` are plain fields or left out; `AccountViewModel.refresh` is `load`, and `updateTime` is `updateDate`.
- `print` calls are not modelled.
- `UUID()` is not modelled: the caller passes the id. `Date()` is `now`.
- `error.localizedDescription` for errors that are not a `NetworkError` is a string the caller supplies (`Failure.Other`), or a fixed generic text.
- The record classes `BankAccountStorage`, `CategoryStorage` and `BackupAccount` are not part of this model's sources. They are defined with the fields their callers use.
- `NetworkError.noInternet` is used by the source but not declared in `NetworkClient.swift`. It is added as a case, and its `errorDescription` is nil.
- `ActionTransaction` in `TransactionBackup.swift` is taken to be the `Action` enum of `BackupModels.swift`.
- The commented-out category join in `IncomeViewModel.load` is not modelled.
- Decimals.ParseWith: strict grammar (optional sign, digits, at most one separator, at least one digit). Foundation's lenient prefix scanning, exponents, white space and the 38-digit mantissa limit are not modelled.
- EditDeleteViewModelModule.InputChange: the locale's decimal separator is one character `sep`, and `Locale.current` is not modelled.
- Structs.ParseTransaction: a string, number, boolean or null element makes `JSONSerialization.data(withJSONObject:)` raise an exception that `try?` does not catch, so `parse` traps on it. The model returns nil for it. `TransactionFileCache.Load` and `LoadedSpec` therefore require every element of the array to be an object or an array (Structs.Serializable), where `parse` is defined.
- TemporaryIdGenerator.NextId: unbounded integers. With a stored counter of `Int.max`, `-lastID - 1` is exactly `Int.min` and `abs(newID)` then traps; the model has no such bound and hands out -(`Int.max` + 1).
- Text.Lower: only ASCII, Latin-1 and basic Cyrillic capitals are lowercased. Cases that change length and other scripts are their own lowercase form, so the search is weaker than Swift's for them.
- BankAccountBackupModule.AccountBackupStorage.AllBackups: a fetch with a `SortDescriptor` promises no order among entries with equal `createdAt`. The contract (`bs == SortBy(entries, CreatedKey)`, with Sorting.SortStable) fixes table order among such ties, which the source does not promise.
- Decimals.Add: `Dec` is unbounded, while Foundation's `Decimal` keeps a 38-digit significand and rounds beyond it. Sums that need more digits (far beyond realistic amounts) are therefore exact here; Decimals.SumValue and the view-model totals inherit this.
- TransactionBackupModule.TransactionBackupStorage.AllBackups: the fetch has no sort descriptor, so the source promises no order. The model returns table order.
- HistoryViewModelModule.HistoryViewModel.constructor: the instant one month before `now` is the parameter `monthAgo`, because calendar month arithmetic is not modelled.
- EditDeleteViewModelModule.EditDeleteViewModel.UpdateDate: the nanoseconds of `fullDate` and the `?? Date()` fallback are not modelled, because dates are whole seconds and the merge always succeeds.
- EditDeleteViewModelModule.EditDeleteViewModel.Save: the force unwrap `selectedCategory!` when editing is a precondition, because it traps in the source.
- Characters are Unicode scalars (`char`), not grapheme clusters. A multi-scalar emoji and `emojiStr.first` are therefore not modelled exactly.
