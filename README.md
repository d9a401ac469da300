# Wallet ledger model

This project models the in-memory e-wallet service of `pkg/wallet/service.go` in Dafny and proves properties of it. A `Service` holds:

- a counter for the next account ID;
- three collections kept in insertion order: accounts (ID, phone, balance), payments (ID, account, amount, category, status) and favorites (a saved payment template with a unique name).

The operations are:

- Account operations: registering a phone, depositing, paying, rejecting a payment (which refunds it), repeating a payment, saving a payment as a favorite and paying from a favorite.
- Lookups by ID.
- Snapshots:
  - A single-file account snapshot with `|`-ended records. `ImportFromFile` reads it back by registering and depositing again.
  - A three-file directory dump with `;`-separated fields and one `\n`-ended record per line. `Import` reads it back as an upsert by ID.
- An account's payment history, written to files of at most `records` lines.
- Summing and filtering payments with `goroutines` workers. Each worker takes a window of `n / g` payments, and one more pass takes the last `n % g`.

Modules:

- `Types`:
  - the entities;
  - the int64 domain, with explicit two's-complement wrap-around (`Wrap64`, `Add64`) for `Money` arithmetic;
  - the error values;
  - `Result` and `Option`.
- `Scan`: the two linear scans the source uses. The lookups return the FIRST match. The loops in `Deposit` and `Pay` keep the LAST match, because they do not stop at the first hit. The module also holds filters and totals.
- `Codec`: Go's `strings.Split` semantics (`Split`), joining, and `strconv.Atoi` semantics:
  - on a syntax error the result is 0;
  - on a range error the result is clamped to the int64 bounds;
  - the errors themselves are ignored, as the source does.

  It also holds the record formats and their round trips.
- `Store`: every operation as a function from the ledger before the call to the ledger after it plus the returned value or error. The lemmas about these functions state what the operations promise.
- `History`: the `k`/`t` file-chunking counters of `HistoryToFiles`, as a paging function.
- `Persistence`:
  - the export text and the import folds;
  - the export/import and snapshot round trips.
- `Partition`: the worker windows of `SumPayments` and `FilterPayments*`.
- `Wallet`: the class `Service`:
  - its fields are the counter and the three collections as sequences;
  - its methods update them in place with the loops of the source;
  - each method is proved equal to its `Store`/`Persistence` function, or to a `Scan`/`History` specification.

A `*Account`, `*Payment` or `*Favorite` that `FindAccountByID`, `FindPaymentByID` or `FindFavoriteByID` returns becomes an index into its sequence. The other operations return a copy of the record they created or changed. The `uuid.New()` IDs the source draws are passed in as parameters. A directory is a sequence of `DumpFile(name, content)`. The source has one inconsistency between its scans:

- `FindAccountByID` returns the first account with an ID.
- `Deposit` and `Pay` credit or debit the last one.

The two agree whenever IDs are unique (`Scan.UniqueScansAgree`), and differ whenever an ID is held twice (`Scan.DuplicateScansDiverge`). `Import` itself appends an account only when its ID is not yet present. It does set the counter to the imported ID, though, even when that lowers it. A later `RegisterAccount` can then hand out an ID that is already taken (`Persistence.ImportThenRegisterDuplicates`).

## Model

| member | source | states |
|---|---|---|
| Wallet.Service.constructor | pkg/wallet/service.go:26-31 | a new service is the zero-valued ledger: counter 0, no accounts, payments or favorites |
| Wallet.Service.FindAccountByID | pkg/wallet/service.go:153-160 | fails with ErrAccountNotFound exactly when no account has the ID; otherwise returns the first account with that ID |
| Wallet.Service.FindPaymentByID | pkg/wallet/service.go:162-169 | fails with ErrPaymentNotFound exactly when no payment has the ID; otherwise returns the first payment with that ID |
| Wallet.Service.FindFavoriteByID | pkg/wallet/service.go:171-178 | fails with ErrFavoriteNotFound exactly when no favorite has the ID; otherwise returns the first favorite with that ID |
| Wallet.Service.ScanAccounts | pkg/wallet/service.go:55-59 | the scan that does not stop at a hit ends on the last account with the ID, or on none |
| Wallet.Service.RegisterAccount | pkg/wallet/service.go:33-47 | the new state and the result are those of `Store.RegisterAccount` (see its lemmas) |
| Wallet.Service.Deposit | pkg/wallet/service.go:49-66 | the new state and the result are those of `Store.Deposit` |
| Wallet.Service.Pay | pkg/wallet/service.go:68-96 | the new state and the result are those of `Store.Pay` |
| Wallet.Service.Reject | pkg/wallet/service.go:98-110 | the new state and the result are those of `Store.Reject` |
| Wallet.Service.Repeat | pkg/wallet/service.go:112-122 | the new state and the result are those of `Store.Repeat` |
| Wallet.Service.FavoritePayment | pkg/wallet/service.go:124-143 | the new state and the result are those of `Store.FavoritePayment` |
| Wallet.Service.PayFromFavorite | pkg/wallet/service.go:145-151 | the new state and the result are those of `Store.PayFromFavorite` |
| Wallet.Service.ExportAccountHistory | pkg/wallet/service.go:364-386 | the result is `Store.ExportAccountHistory` of the current state: the account's payments in order, or ErrAccountNotFound |
| Wallet.Service.ExportToFile | pkg/wallet/service.go:180-193 | the text written is every account as `id;phone;balance` followed by `\|`, in order |
| Wallet.Service.ImportFromFile | pkg/wallet/service.go:195-218 | the new state and the result are those of `Persistence.ImportFromFile`: register and deposit each record, and stop at the first error. It requires only `Persistence.Restorable`: every record the loop reaches with a free phone has a third field |
| Wallet.Service.WriteText | pkg/wallet/service.go:236-239 | the dump text is every record followed by `\n`, in order |
| Wallet.Service.Export | pkg/wallet/service.go:220-268 | the files written are `Persistence.ExportFiles`: one dump per non-empty collection, in the source's order |
| Wallet.Service.ImportAccounts | pkg/wallet/service.go:279-301 | the new state is the account-line fold `ImportAccountLines` over the lines |
| Wallet.Service.ImportPayments | pkg/wallet/service.go:303-330 | the new state is the payment-line fold `ImportPaymentLines` over the lines |
| Wallet.Service.ImportFavorites | pkg/wallet/service.go:332-360 | the new state is the favorite-line fold `ImportFavoriteLines` over the lines, using the fresh IDs |
| Wallet.Service.Import | pkg/wallet/service.go:270-362 | the new state is `Persistence.Import` over the three files read, where a missing file reads as "" |
| Wallet.Service.HistoryToFiles | pkg/wallet/service.go:388-425 | no payments write no file; at most `records` payments write one `payments.dump`; more are paged into `payments<t>.dump` files by `Paginate` |
| Wallet.Service.WritePages | pkg/wallet/service.go:402-419 | the `k`/`t` loop writes exactly `PageFiles(Paginate(ps, records))` |
| Wallet.Service.SumWindow | pkg/wallet/service.go:440-453 | one worker's result is the int64 sum of its window |
| Wallet.Service.FilterWindow | pkg/wallet/service.go:496-512 | one worker's result is the matching payments of its window, in order |
| Wallet.GoMod | pkg/wallet/service.go:432 | Go's remainder of a non-negative count by a non-zero divisor is below the divisor's magnitude and at most the count |
| Wallet.GoModValue | pkg/wallet/service.go:432 | the remainder is what truncated division leaves: the count minus the remainder is a non-negative multiple of the divisor |
| Wallet.Service.SumWorkers | pkg/wallet/service.go:434-457 | the workers together sum the first `n - n % g` payments, in int64 (`Partition.WorkerWindowsTotal` shows that this prefix is exactly what the first `g` windows of `Partition.Windows` cover) |
| Wallet.Service.SumPayments | pkg/wallet/service.go:427-472 | one worker or more gives the int64 total of all payments (`Partition.PartitionedTotal` shows that this equals the sum over all windows of `Partition.Windows`, worker windows and tail). A negative worker count sums everything once, then the last `n % g` payments a second time |
| Wallet.Service.FilterWorkers | pkg/wallet/service.go:492-515 | the workers together collect the matching payments among the first `n - n % g` |
| Wallet.Service.FilterPaymentsByFn | pkg/wallet/service.go:545-614 | below two workers: exactly the matching payments, in order. With more workers: ErrAccountNotFound exactly when none match, otherwise the matching payments as a multiset |
| Wallet.Service.FilterPayments | pkg/wallet/service.go:474-543 | as `FilterPaymentsByFn` with the filter "belongs to account `accountID`" |
| Store.RegisterAccount | pkg/wallet/service.go:33-47 | a failure changes nothing; a success only appends the returned account to the accounts |
| Store.Deposit | pkg/wallet/service.go:49-66 | a failure changes nothing; the number of accounts, the payments, the favorites and the counter never change |
| Store.Pay | pkg/wallet/service.go:68-96 | a failure changes nothing; a success appends the returned payment, which carries the given ID; the favorites and the counter never change |
| Store.Reject | pkg/wallet/service.go:98-110 | a failure changes nothing; no record is added or removed, and the favorites and the counter stay as they are (its three outcomes: `Store.RejectUnknown`, `Store.RejectOrphan`, `Store.RejectRefunds`) |
| Store.Repeat | pkg/wallet/service.go:112-122 | a failure changes nothing; a success appends the returned payment under the new ID; no account is added and the favorites stay as they are |
| Store.FavoritePayment | pkg/wallet/service.go:124-143 | a failure changes nothing; a success only appends the returned favorite, which carries the given name |
| Store.PayFromFavorite | pkg/wallet/service.go:145-151 | a failure changes nothing; a success appends the returned payment under the given ID; no account is added and the favorites stay as they are |
| Store.ExportAccountHistory | pkg/wallet/service.go:364-386 | it fails exactly when the account is unknown; the history holds only payments of that account |
| Store.RegisterAccountOutcome | pkg/wallet/service.go:33-47 | fails with ErrPhoneRegistered exactly when the phone is taken, and then changes nothing; succeeds exactly when the phone is free, and then appends one zero-balance account whose ID is the counter plus one, which becomes the new counter |
| Store.RegisterKeepsPhonesUnique | pkg/wallet/service.go:34-38 | registration preserves the invariant that phones are unique |
| Store.RegisterTwiceFails | pkg/wallet/service.go:34-38 | after a successful registration, registering the same phone again fails |
| Store.LastIndexIsLast | pkg/wallet/service.go:55-59 | the scan lands on index `i` when `i` holds the ID and no later account does |
| Store.DepositOutcome | pkg/wallet/service.go:49-63 | a non-positive amount gives ErrAmountMustBePositive; an unknown account gives ErrAccountNotFound; both leave the ledger unchanged |
| Store.DepositCredits | pkg/wallet/service.go:54-65 | a positive deposit adds the amount (int64) to the last account with the ID and changes nothing else |
| Store.DepositKeepsBalancesNonNegative | pkg/wallet/service.go:64 | a deposit that cannot overflow preserves the invariant that balances are non-negative |
| Store.PayOutcome | pkg/wallet/service.go:68-81 | a non-positive amount gives ErrAmountMustBePositive; an unknown account gives ErrAccountNotFound; both leave the ledger unchanged |
| Store.PayDebits | pkg/wallet/service.go:72-95 | a balance below the amount gives ErrNotEnoughBalance and no change; otherwise exactly the last account with the ID is debited and one INPROGRESS payment is appended and returned |
| Store.PayKeepsBalancesNonNegative | pkg/wallet/service.go:82-86 | paying preserves the invariant that balances are non-negative |
| Store.RejectUnknown | pkg/wallet/service.go:98-102 | rejecting an unknown payment fails with ErrPaymentNotFound and changes nothing |
| Store.RejectRefunds | pkg/wallet/service.go:98-110 | a known payment whose account exists: the first payment with the ID becomes FAIL, its amount is credited (int64) to the first account with its account ID, nothing else changes, and the result is success |
| Store.RejectOrphan | pkg/wallet/service.go:98-106 | a known payment whose account ID no account holds gives ErrAccountNotFound and changes nothing, the payment's status included |
| Store.PayThenRejectRestores | pkg/wallet/service.go:68-110 | with unique account IDs, paying and then rejecting the payment restores every balance and leaves the payment recorded as FAIL |
| Store.RejectUndoesDebit | pkg/wallet/service.go:82-110 | rejecting a payment just appended, after its amount was debited from the first account with its account ID, restores that balance and leaves the payment recorded as FAIL |
| Store.RejectTwiceCreditsTwice | pkg/wallet/service.go:98-110 | Reject does not check the status, so rejecting again refunds the amount a second time |
| Store.RepeatCopiesPayment | pkg/wallet/service.go:112-122 | repeating a known payment is a Pay with the original's account, amount and category under the new ID |
| Store.RepeatUnknown | pkg/wallet/service.go:112-116 | repeating an unknown payment fails with ErrPaymentNotFound and pays nothing |
| Store.FavoritePaymentOutcome | pkg/wallet/service.go:124-143 | a taken name gives ErrFavoriteRegistered; otherwise an unknown payment gives ErrPaymentNotFound; it succeeds exactly when the name is free and the payment known, and then one favorite copying the payment's account, amount and category is appended and returned |
| Store.FavoritePaymentKeepsNamesUnique | pkg/wallet/service.go:124-143 | saving a favorite preserves the invariant that favorite names are unique |
| Store.PayFromFavoriteDelegates | pkg/wallet/service.go:145-151 | an unknown favorite gives ErrFavoriteNotFound; otherwise the result is a Pay with the favorite's account, amount and category |
| Store.ExportAccountHistoryOutcome | pkg/wallet/service.go:364-386 | an unknown account gives ErrAccountNotFound; a known one gives exactly its payments, in insertion order |
| Scan.FirstIndex | pkg/wallet/service.go:153-160 | the index found holds the key and no earlier element does; there is none exactly when no element holds the key |
| Scan.LastIndex | pkg/wallet/service.go:55-59 | the index found holds the key and no later element does; there is none exactly when no element holds the key |
| Scan.UniqueScansAgree | pkg/wallet/service.go:153-160 | with unique keys, the first-match lookup and the last-match deposit/pay scan find the same record |
| Scan.DuplicateScansDiverge | pkg/wallet/service.go:54-59 | whenever two elements share a key, the first-match lookup and the last-match scan for that key pick different records |
| Scan.Filter | pkg/wallet/service.go:372-384 | every payment collected passes the filter |
| Scan.FilterCounts | pkg/wallet/service.go:372-384 | the filter keeps each passing payment exactly as often as it occurs, and drops every other one |
| Scan.FilterConcat | pkg/wallet/service.go:510 | filtering two adjacent windows and appending the results is filtering their concatenation |
| Scan.TotalConcat | pkg/wallet/service.go:459-466 | the total of two adjacent windows is the sum of their totals |
| Codec.Split | pkg/wallet/service.go:201 | Go's `strings.Split` on one separator: the result is never empty (an empty string splits into one empty piece) |
| Codec.Atoi | pkg/wallet/service.go:211 | `strconv.Atoi` with its error ignored: a text without a digit parses as 0 (a syntax error); the inverse of `Itoa` by `Codec.AtoiItoa` |
| Codec.Itoa | pkg/wallet/service.go:238 | the decimal form of an integer: a leading `-` exactly for a negative number, digits everywhere else |
| Codec.AccountToString | pkg/wallet/service.go:238 | the `id;phone;balance` record the import reads back; `Codec.AccountRoundTrip` proves it is inverted by `ParseAccount` |
| Codec.PaymentToString | pkg/wallet/service.go:260 | the `id;accountID;amount;category;status` record the import reads back; `Codec.PaymentRoundTrip` proves it is inverted by `ParsePayment` |
| Codec.FavoriteToString | pkg/wallet/service.go:249 | the `id;accountID;name;amount;category` record the import reads back; `Codec.FavoriteRoundTrip` proves it is inverted by `ParseFavorite` |
| Codec.ParseAccount | pkg/wallet/service.go:286-288 | reads ID, phone and balance from fields 0, 1 and 2 (partner: `Codec.AccountRoundTrip`) |
| Codec.ParsePayment | pkg/wallet/service.go:310-314 | reads ID, account, amount, category and status from fields 0 to 4 (partner: `Codec.PaymentRoundTrip`) |
| Codec.ParseFavorite | pkg/wallet/service.go:339-343 | reads ID, account, name, amount and category from fields 0 to 4 (partner: `Codec.FavoriteRoundTrip`) |
| Codec.SplitAround | pkg/wallet/service.go:201 | splitting on a separator distributes over one occurrence of it |
| Codec.SplitJoin | pkg/wallet/service.go:282 | splitting joined fields that are free of the separator gives the fields back |
| Codec.JoinSplit | pkg/wallet/service.go:201 | joining the pieces of a split gives the string back |
| Codec.AtoiItoa | pkg/wallet/service.go:286-288 | parsing the decimal form of any int64 gives it back |
| Codec.ItoaHasNoSeparator | pkg/wallet/service.go:238 | printed numbers contain none of the separators `;`, `\n` and `\|` |
| Codec.AccountRoundTrip | pkg/wallet/service.go:282-288 | an account record free of separators splits into 3 fields, which parse back to the account |
| Codec.PaymentRoundTrip | pkg/wallet/service.go:306-314 | a payment record free of separators splits into 5 fields, which parse back to the payment |
| Codec.FavoriteRoundTrip | pkg/wallet/service.go:335-343 | a favorite record free of separators splits into 5 fields, which parse back to the favorite |
| Codec.SplitText | pkg/wallet/service.go:280 | a written file followed by any text splits into the file's lines, then the pieces of that text |
| Codec.SplitFile | pkg/wallet/service.go:280 | a written dump splits into its lines plus one empty trailing piece |
| History.Paginate | pkg/wallet/service.go:402-419 | there are no pages exactly when there are no records |
| History.NextPage | pkg/wallet/service.go:407-418 | the next record either opens one new page, giving `prev + [[x]]`, or is appended to the open last page; earlier pages are untouched |
| History.PaginateFlatten | pkg/wallet/service.go:402-419 | paging neither drops, duplicates nor reorders records |
| History.PaginateSizes | pkg/wallet/service.go:402-419 | with `records >= 1`, every page holds `records` lines except the last, which holds 1 to `records` |
| History.PaginateCount | pkg/wallet/service.go:402-419 | the number of files is the ceiling of the record count divided by `records` |
| History.PaginateUnbounded | pkg/wallet/service.go:402-419 | with `records <= 0` the file is never full, so every record goes to `payments1.dump` |
| History.PageFiles | pkg/wallet/service.go:408 | one file per page |
| History.PageFilesNewPage | pkg/wallet/service.go:407-412 | a record that opens a page creates the next numbered file holding that one line |
| History.PageFilesExtend | pkg/wallet/service.go:411-412 | a record added to the open page is appended as a line to the open file |
| History.PageFilesStep | pkg/wallet/service.go:407-412 | one pass of the loop body (open `payments<t>.dump` when `k == 0`, then append the line to the last file) turns the files of the pages so far into the files of the next pages |
| History.CountersStep | pkg/wallet/service.go:403-418 | `k == 0` exactly when the next record opens a new file numbered `t`; `k++`, then resetting `k` and advancing `t` on a full file, keeps the counters in step with the pages |
| Persistence.ExportFiles | pkg/wallet/service.go:235-266 | at most three files are written, each named `accounts.dump`, `favorites.dump` or `payments.dump` (the contents: `Persistence.ReadExport`) |
| Persistence.SnapshotText | pkg/wallet/service.go:186-191 | every account as `id;phone;balance` followed by `\|`, in order; without a contract of its own, its properties are `Persistence.ImportFromFileRestoresSnapshot` |
| Persistence.AccountsText | pkg/wallet/service.go:236-239 | every account record followed by `\n`, in order; without a contract of its own, its properties are `Codec.SplitFile` and `Persistence.ExportImportRoundTrip` |
| Persistence.FavoritesText | pkg/wallet/service.go:247-250 | every favorite record followed by `\n`, in order; its properties are `Codec.SplitFile` and `Persistence.ExportImportRoundTrip` |
| Persistence.PaymentsText | pkg/wallet/service.go:258-261 | every payment record followed by `\n`, in order; its properties are `Codec.SplitFile` and `Persistence.ExportImportRoundTrip` |
| Persistence.ReadDump | pkg/wallet/service.go:271-277 | the content of the first file of that name, or "" when there is none; without a contract of its own, its properties are `Persistence.ReadAbsent`, `Persistence.ReadFound` and `Persistence.ReadExportInto` |
| Persistence.ImportAccountLine | pkg/wallet/service.go:282-300 | one account line leaves the payments and favorites as they are. Either it changes nothing, or it overwrites one account in place, keeping its ID and the counter. Or it appends an account whose ID was not present, keeps the others as they were, and makes that ID the counter |
| Persistence.ImportPaymentLine | pkg/wallet/service.go:306-329 | one payment line changes only the payments. Either it changes nothing, or it overwrites one payment in place, keeping its ID. Or it appends a payment whose ID was not present and keeps the others as they were |
| Persistence.ImportFavoriteLine | pkg/wallet/service.go:335-359 | one favorite line changes only the favorites. Either it changes nothing, or it overwrites one favorite in place, keeping its stored ID. Or it appends one under the fresh ID and keeps the others as they were |
| Persistence.ImportAccountLines | pkg/wallet/service.go:279-301 | the account lines applied one by one, in order, by `ImportAccountLine`; its properties are `Persistence.ImportAccountsRoundTrip` and `Persistence.TrailingLineSkipped` |
| Persistence.ImportPaymentLines | pkg/wallet/service.go:303-330 | the payment lines applied one by one, in order, by `ImportPaymentLine`; its properties are `Persistence.ImportPaymentsRoundTrip` and `Persistence.TrailingLineSkipped` |
| Persistence.ImportFavoriteLines | pkg/wallet/service.go:332-360 | the favorite lines applied one by one, in order, by `ImportFavoriteLine`, line `i` drawing fresh ID `i`; its properties are `Persistence.ImportFavoritesRoundTrip` and `Persistence.TrailingLineSkipped` |
| Persistence.Import | pkg/wallet/service.go:270-362 | the accounts file, then the payments file, then the favorites file, each split on `\n` and folded into the ledger; its round trip is `Persistence.ExportImportRoundTrip` |
| Persistence.RestoreAccounts | pkg/wallet/service.go:201-216 | restoring a snapshot never touches payments or favorites and never removes an account (the outcome: `Persistence.RestoreSnapshot`). It requires only `Persistence.Restorable`: a record with fewer than two fields is skipped, a taken phone or a failed deposit stops the loop, and only a record that reaches `accountStr[2]` needs a third field |
| Persistence.ImportFromFile | pkg/wallet/service.go:195-218 | `RestoreAccounts` over the text split on `\|`, requiring only `Persistence.Restorable`; its properties are `Persistence.ImportFromFileRestoresSnapshot`, `Persistence.ImportFromFileRejectsNonPositiveBalance` and `Persistence.TakenPhoneStopsBeforeThirdField` |
| Persistence.ImportThenRegisterDuplicates | pkg/wallet/service.go:289-298 | importing a new account below an existing ID lowers the counter, so the next registration reuses that ID and account IDs stop being unique |
| Persistence.ShortLineSkipped | pkg/wallet/service.go:283-285 | a line with fewer than two fields changes nothing, in all three imports |
| Persistence.ImportAccountUpsert | pkg/wallet/service.go:286-300 | a known ID gets its phone and balance overwritten in place; a new ID is appended and becomes the counter, even when that lowers it |
| Persistence.ImportPaymentUpsert | pkg/wallet/service.go:315-329 | a known payment ID is overwritten in place; a new one is appended under its imported ID |
| Persistence.ImportFavoriteUpsert | pkg/wallet/service.go:344-359 | a known favorite ID is overwritten in place; a new one is appended under a fresh ID |
| Persistence.FavoriteReimportDuplicates | pkg/wallet/service.go:344-359 | because new favorites get a fresh ID, importing the same record twice appends it twice |
| Persistence.ImportAccountsRoundTrip | pkg/wallet/service.go:279-301 | importing the records of distinct accounts into a ledger with none appends them in order, and the counter ends at the last ID |
| Persistence.ImportPaymentsRoundTrip | pkg/wallet/service.go:303-330 | importing the records of distinct payments into a ledger with none appends them in order |
| Persistence.ImportFavoritesRoundTrip | pkg/wallet/service.go:332-360 | importing favorite records into a ledger with none appends them in order, each under its line's fresh ID |
| Persistence.TrailingLineSkipped | pkg/wallet/service.go:280-285 | the empty piece after a file's final `\n` is skipped by every import fold |
| Persistence.ReadAbsent | pkg/wallet/service.go:271-277 | a file that is not in the directory reads as "" |
| Persistence.ReadFound | pkg/wallet/service.go:271-277 | a file in the directory reads as its content |
| Persistence.ReadExport | pkg/wallet/service.go:220-277 | after Export, each read yields its collection's dump text, or "" for an empty collection, whose file was not written |
| Persistence.ReadExportInto | pkg/wallet/service.go:233-277 | after Export into a directory `dir` that already holds files, each read yields its collection's dump text when the collection is non-empty; for an empty collection, whose file is not rewritten, it yields what `dir` held under that name |
| Persistence.ExportImportRoundTrip | pkg/wallet/service.go:220-362 | exporting a ledger with unique IDs and separator-free fields, then importing it into an empty service, restores the accounts, the payments and the last account's ID as the counter. The favorites come back under fresh IDs |
| Persistence.FitRecordsRestorable | pkg/wallet/service.go:201-216 | records that all have at least three fields can always be restored |
| Persistence.TakenPhoneStopsBeforeThirdField | pkg/wallet/service.go:203-211 | a two-field first record whose phone is taken fails with ErrPhoneRegistered and changes nothing, before the missing third field is read; such text is not `WellFormed`, yet it is `Restorable` |
| Persistence.ImportFromFileRejectsNonPositiveBalance | pkg/wallet/service.go:207-215 | a snapshot record with a non-positive balance registers its account, then fails with ErrAmountMustBePositive and stops, whatever records follow |
| Persistence.Restored | pkg/wallet/service.go:203-216 | restoring adds exactly one account per record |
| Persistence.RestoreStep | pkg/wallet/service.go:203-215 | one record with a new phone and a positive balance registers under the next ID, deposits its balance and continues |
| Persistence.RestoreSnapshot | pkg/wallet/service.go:201-216 | records with distinct new phones and positive balances are all re-registered in order under fresh counter values, with their balances |
| Persistence.ImportFromFileRestoresSnapshot | pkg/wallet/service.go:180-218 | importing the snapshot of such accounts succeeds and yields `Restored`: same phones and balances, new IDs following the counter |
| Partition.WorkerWindow | pkg/wallet/service.go:431-455 | worker `i`'s window lies within the first `n - n % g` payments, and the next worker starts where it ends |
| Partition.WrapSplit | pkg/wallet/service.go:448-465 | adding int64 partial sums of a prefix and the rest gives the int64 total |
| Partition.Windows | pkg/wallet/service.go:431-466 | there are `g` windows plus one for the tail when `n % g != 0` |
| Partition.WindowsContiguous | pkg/wallet/service.go:435-466 | the windows start at 0, end at `n`, never run backwards, and each begins where the previous one ends |
| Partition.WindowOf | pkg/wallet/service.go:436-466 | every index below `n` lies in some window |
| Partition.WindowsTile | pkg/wallet/service.go:431-466 | every payment index lies in exactly one window, and no window reaches outside the payments |
| Partition.ChainTotal | pkg/wallet/service.go:440-466 | summing contiguous windows one by one is summing the prefix they cover |
| Partition.PartitionedTotal | pkg/wallet/service.go:427-472 | for every worker count, the sum of the per-window sums is the sequential total |
| Partition.WorkerWindowsTotal | pkg/wallet/service.go:434-457 | the `g` worker windows without the tail lie within the payments and together sum the first `n - n % g` |
| Partition.ElevenPaymentsOnTwoWorkers | pkg/wallet/service.go:427-472 | eleven payments with amounts 1 to 11, on two workers (windows of 5 and a tail of 1), sum to 66 |
| Types.Wrap64 | pkg/wallet/service.go:448 | int64 wrap-around leaves values already in range unchanged |
| Types.Wrap64Congruent | pkg/wallet/service.go:448 | the wrapped value differs from the exact sum by a multiple of 2^64, and it is the only int64 that does |
| Types.WrapAddBoth | pkg/wallet/service.go:452 | wrapping each operand before an int64 addition does not change the wrapped sum |

## Left out

- Concurrency: the goroutines and the `sync.WaitGroup`/`sync.Mutex` of `SumPayments` and `FilterPayments*` are modelled as workers that run one after another.
  - The unsynchronised `sum += res` in `SumPayments` (the lock there is released before the update) is a data race that can lose a worker's partial sum. The model does not capture it.
- Wallet.Service.FilterPaymentsByFn: with two or more workers, the order in which goroutines append their windows is not determined, so the result is stated as a multiset of the matching payments rather than a sequence.
- Wallet.Service.FilterPayments: stated as a multiset for two or more workers, for the same reason.
- Wallet.Service.SumPayments: with a negative worker count, Go's `n / g` is unused and `n % g` is computed with truncation (`GoMod`).
- Division by zero: `goroutines == 0` panics in the source (`len / goroutines`), so `SumPayments`, `FilterPayments` and `FilterPaymentsByFn` require a non-zero count.
- `SumPaymentsWithProgress` (lines 695-727) and the commented-out code (lines 616-693) are not modelled. `SumPaymentsWithProgress` does not split the payments: it starts `len / 1000000` goroutines (at least one), and each sums the whole slice and sends its part size and sum on a channel. Channels are outside this model.
- Nil payments and the `res == nil` checks (lines 445, 485, 502, 556): the model's collections hold values, never nil pointers, so those branches cannot occur.
- File system:
  - `os.Create`, `os.Open`, `ReadAll`/`Write` are replaced by values. A directory is a `seq<DumpFile>`. In `Import`, a dump file that is missing or cannot be read reads as "", which is what the source's `read` helper (lines 271-277) does.
  - `ImportFromFile` takes the file's content. The source returns `os.Open`'s error when the file cannot be opened (lines 196-199); that error path is not modelled.
  - `ExportToFile` returns the text it would write.
  - Create and write errors are not modelled. `ExportToFile` (lines 181-190) and `Export` (lines 223-265) return them to the caller. Only `HistoryToFiles` discards them (lines 392, 399, 408, 412).
- Persistence.ReadExport, Persistence.ExportImportRoundTrip: both assume that `Export` writes into a directory without earlier dumps. `Export` writes no file for an empty collection (lines 235, 246, 257), so an older dump of that name stays, and `Import`'s `read` (lines 271-277) reads it back. `Persistence.ReadExportInto` states what is read from a directory that already holds files.
- Aliasing: `RegisterAccount`, `Pay`, `Repeat`, `FavoritePayment` and `PayFromFavorite` return a pointer into the service's own slices. The model returns a copy, so a caller's later write through that pointer, which would change the service's record, is not captured. `Find*ByID` return an index, which names the record, but a caller outside the class cannot write through it either; within the model only the service's own methods change a record.
- `uuid.New()` is replaced by ID parameters (`paymentID`, `favoriteID`, `newID`, `freshIDs`) supplied by the caller.
- Persistence.Import and Wallet.Service.Import*: a record with 2 up to width - 1 fields makes the source index past the end of the field slice and panic. The model's `LinesFit`/`WellFormed` requirements exclude such input rather than model the panic.
- Wallet.Service.ImportFromFile, Persistence.RestoreAccounts, Persistence.ImportFromFile: the same panic, for a `|`-record with exactly two `;`-fields that the loop reaches with a free phone (lines 207-211), is excluded by `Persistence.Restorable`. A two-field record after an error, or with a taken phone, is allowed and handled as the source does.
- `types.go` is not part of this model:
  - The status strings `INPROGRESS` and `FAIL` and the `Money`/`Phone` types come from it. They are modelled as the constants `StatusInProgress`/`StatusFail`, as int64 and as `string`.
  - The records' writers are modelled in the `;`-joined formats the import reads back.
- Codec.Split: the property that no piece contains the separator is not stated. The round trips only need `Split`/`Join` inverse to each other.
- `cmd/main.go`, `pkg/messenger` and the tests in `service_test.go` are not part of this model.
