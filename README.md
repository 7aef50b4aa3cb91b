# Payment ledger

A Dafny model of the payment ledger of the payment service. It covers the
`PaymentService` money transfer, the transfer rollback and the paged
transaction listing of one account. It also covers the account and
transaction helper services, the record types they read and write (accounts,
transactions, commands, results, events and query records), and the request
checks of the demonstration transfer endpoint.

Money is a whole number of cents, as in the `decimal(18,2)` balance and
amount columns. A GUID is a natural number, with 0 standing for `Guid.Empty`.

Every call takes the values it would generate as parameters: the fresh GUIDs,
the version tokens and the `DateTime.UtcNow` reading. Each call reads the
clock once.

An exception is modelled by an oracle parameter. For a transfer or rollback,
this parameter names the step that throws. For the helper services, a
`saveFails` flag says whether the save throws.

Some failures come from the database itself:

- A new transaction row whose id the table already holds violates the
  primary key, so that save throws.
- A new account whose number is taken violates the unique index, so that
  save throws too.

The store is the class `Ledger.PaymentDbContext`. It holds the accounts table
as a map keyed by id, and the transactions table as a sequence in table
order, because "first row with this id" and the listing order depend on that
order. The message bus is `Events.PublishEndpoint`, which holds the sequence
of everything published.

Transfer and rollback are each written twice:

- as a function of the committed state: `PaymentService.TransferEffect` and
  `PaymentService.RollbackEffect`. Each returns the result, the state after
  the call and the events published.
- as methods of the `PaymentService.PaymentService` class. These do the
  source's steps in the source's order on the store and on the endpoint, and
  are proved to end where the function says.

Three lemmas only unfold a definition for the other proofs and have no row
in the table: `PaymentService.TransferEffectPastGuards`,
`PaymentService.RollbackEffectPastGuards` and `ListingProperties.ListingIsPage`.

The properties are lemmas about those functions, in `TransferProperties`,
`RollbackProperties`, `ListingProperties` and `Scenarios`. They cover:

- the order of the guards;
- money conservation;
- the row a transfer records and the events it publishes;
- what survives a failure;
- a rollback exactly undoing the transfer before it;
- the page count of the listing.

The code does not enforce the following, and neither does the model:

- `TransferMoneyAsync` does not reject a non-positive amount or a transfer
  from an account to itself. On the server only the demonstration endpoint
  does; the web transfer form also checks both, on the client.
  - A negative amount passes the balance check and moves money the other
    way (`Scenarios.NegativeAmountOverdrawsPayee`).
  - A transfer from an account to itself leaves the balance as it was but
    still writes the row (`TransferProperties.SameAccountKeepsBalance`).
- Balances can become negative:
  - a rollback does not check the payee's balance or active flag
    (`Scenarios.RollbackOverdrawsPayee`);
  - `UpdateAccountBalanceAsync` accepts any value.
- Events are published inside the database transaction, before
  `CommitAsync`. A commit that throws leaves `TransferCompleted` published
  for a transfer the store does not hold
  (`TransferProperties.CommitFaultLeaksEvents`).
- The row is marked `Completed` by a second save in the same database
  transaction, before the commit.
- `UpdateTransactionStatusAsync` applies any status to any row. There is no
  transition check.

## Model

| member | source | states |
|---|---|---|
| `Models.DefaultAccount` | src/Shared/Shared.Domain/Models/Account.cs:7-29 | a new account is active, in "USD", with an empty version token and empty number and holder, within the column limits |
| `Models.DefaultTransaction` | src/Shared/Shared.Domain/Models/Transaction.cs:7-37 | a new transaction is a `Pending` `Transfer` in "USD" created now, with completion time, failure time, failure reason and correlation id unset |
| `Models.EnumsEnumerated` | src/Shared/Shared.Domain/Models/Transaction.cs:40-56 | there are exactly six statuses and four types, each listed once |
| `Commands.NewTransferMoneyCommand` | src/Shared/Shared.Domain/Commands/PaymentCommands.cs:5-12 | a transfer command given only parties and amount has currency "USD", no description and an empty correlation id |
| `Commands.NewRollbackTransferCommand` | src/Shared/Shared.Domain/Commands/PaymentCommands.cs:21-25 | a rollback command given only the id has an empty reason and an empty correlation id |
| `Events.Stamped` | src/Shared/Shared.Domain/Events/BaseEvent.cs:7-9 | a published event carries the given correlation id and payload, an empty causation id and schema version "1.0" |
| `Events.PublishEndpoint.Publish` | src/Services/PaymentService/Services/PaymentService.cs:105-113 | publishing appends the event to everything published so far |
| `Queries.NewAccountTransactionsQuery` | src/Shared/Shared.Domain/Queries/PaymentQueries.cs:44-49 | a listing query defaults to page 1 of 20 rows |
| `Queries.ParseStatus` | src/Shared/Shared.Domain/Queries/PaymentQueries.cs:35 | a status read back from a name is the status with that name |
| `Queries.ParseType` | src/Shared/Shared.Domain/Queries/PaymentQueries.cs:36 | a type read back from a name is the type with that name |
| `Queries.EnumNamesRoundTrip` | src/Shared/Shared.Domain/Queries/PaymentQueries.cs:35-36 | turning a status or type into its name and back gives it again, and distinct members have distinct names |
| `Queries.AccountView` | src/Services/PaymentService/Services/PaymentService.cs:279-289 | the account view copies all eight fields of the account |
| `Queries.TransactionView` | src/Services/PaymentService/Services/PaymentService.cs:302-317 | the transaction view copies every field of the row, and its status and type names parse back to the row's |
| `Queries.TotalPages` | src/Shared/Shared.Domain/Queries/PaymentQueries.cs:57 | for a positive page size the page count is the ceiling of count over size: enough pages for every row, one fewer is not enough, zero rows give zero pages |
| `Ledger.FindTransaction` | src/Services/PaymentService/Services/PaymentService.cs:173-174 | the lookup returns the position of the first row with the id, or nothing exactly when no row has it |
| `Ledger.FindAppended` | src/Services/PaymentService/Services/PaymentService.cs:90 | a row added under an unused id is found at the end of the table |
| `Ledger.FindAfterRowUpdate` | src/Services/PaymentService/Services/PaymentService.cs:220-222 | rewriting a row in place under its own id changes no lookup |
| `Ledger.AppendKeepsUniqueIds` | src/Services/PaymentService/Data/PaymentDbContext.cs:35 | adding a row under an unused id keeps transaction ids unique |
| `Ledger.RowUpdateKeepsUniqueIds` | src/Services/PaymentService/Data/PaymentDbContext.cs:35 | rewriting a row under its own id keeps transaction ids unique |
| `Ledger.WithRowsWellFormed` | src/Services/PaymentService/Data/PaymentDbContext.cs:22-35 | the account keys and the transaction keys are constrained independently |
| `Ledger.Rebalanced` | src/Services/PaymentService/Services/AccountService.cs:48-50 | an account write sets the balance, the update time and a fresh version token and changes no other field |
| `Ledger.Debited` | src/Services/PaymentService/Services/PaymentService.cs:93-95 | a debit lowers the balance by the amount, sets a fresh version token, and keeps the id, number and active flag |
| `Ledger.Credited` | src/Services/PaymentService/Services/PaymentService.cs:98-100 | a credit raises the balance by the amount, sets a fresh version token, and keeps the id, number and active flag |
| `Ledger.RebalancedKeepsWellFormed` | src/Services/PaymentService/Data/PaymentDbContext.cs:22-29 | writing an account keeps its primary key and the unique account numbers |
| `Ledger.PaymentDbContext.constructor` | src/Services/PaymentService/Data/PaymentDbContext.cs:8-13 | a new context has empty tables, which are well formed |
| `Ledger.PaymentDbContext.Restore` | src/Services/PaymentService/Services/PaymentService.cs:150-152 | `RollbackAsync` puts both tables back to what was committed |
| `PaymentService.TransferEventsBefore` | src/Services/PaymentService/Services/PaymentService.cs:102-140 | at most three transfer events are out when a step throws |
| `PaymentService.TransferRecord` | src/Services/PaymentService/Services/PaymentService.cs:77-88 | the new row is a `Processing` transfer created now, copying the command's parties, amount, currency, description and correlation id |
| `PaymentService.CompletedRecord` | src/Services/PaymentService/Services/PaymentService.cs:126-127 | completing a row sets `Completed` and the completion time and nothing else |
| `PaymentService.TransferBalances` | src/Services/PaymentService/Services/PaymentService.cs:92-100 | debit then credit writes only existing accounts |
| `PaymentService.TransferEffect` | src/Services/PaymentService/Services/PaymentService.cs:29-162 | a transfer succeeds exactly when nothing throws, the guards pass and the id is unused; success returns the id, failure returns `Guid.Empty`, a message and the unchanged state; at most three events, all under the command's correlation id and none `TransferFailed` |
| `PaymentService.TransferPreservesWellFormed` | src/Services/PaymentService/Services/PaymentService.cs:29-162 | every transfer outcome keeps account keys, unique account numbers and unique transaction ids |
| `PaymentService.TransferUnitPreservesWellFormed` | src/Services/PaymentService/Services/PaymentService.cs:76-140 | the unit of work keeps the store well formed |
| `PaymentService.RollbackEventsBefore` | src/Services/PaymentService/Services/PaymentService.cs:224-247 | at most two rollback events are out when a step throws |
| `PaymentService.ReversedBalances` | src/Services/PaymentService/Services/PaymentService.cs:211-218 | refund then re-debit writes only existing accounts |
| `PaymentService.RolledBackRecord` | src/Services/PaymentService/Services/PaymentService.cs:220-222 | a rolled-back row has status `RolledBack`, the failure time and the reason, and nothing else changes |
| `PaymentService.RollbackEffect` | src/Services/PaymentService/Services/PaymentService.cs:164-267 | a rollback succeeds exactly when nothing throws and the row exists, is `Completed` and both its accounts exist; failure keeps the state; at most two events, all under the command's correlation id |
| `PaymentService.RollbackPreservesWellFormed` | src/Services/PaymentService/Services/PaymentService.cs:164-267 | every rollback outcome keeps the store well formed |
| `PaymentService.RollbackUnitPreservesWellFormed` | src/Services/PaymentService/Services/PaymentService.cs:211-247 | the rollback's unit of work keeps the store well formed |
| `PaymentService.RowsInvolving` | src/Services/PaymentService/Services/PaymentService.cs:322-323 | the filter keeps every row with the account on either side as often as the table holds it, and no other row |
| `PaymentService.PrependNewestFirst` | src/Services/PaymentService/Services/PaymentService.cs:324 | a row no older than the head may go in front of a newest-first sequence |
| `PaymentService.InsertNewestFirst` | src/Services/PaymentService/Services/PaymentService.cs:324 | inserting keeps the sequence newest-first and adds exactly that row |
| `PaymentService.SortNewestFirst` | src/Services/PaymentService/Services/PaymentService.cs:324 | the ordering is newest-first and a permutation of its input |
| `PaymentService.SkipCount` | src/Services/PaymentService/Services/PaymentService.cs:329 | the skip never passes the end |
| `PaymentService.PageOf` | src/Services/PaymentService/Services/PaymentService.cs:329-330 | a page is empty for a non-positive size, holds at most the size otherwise, and holds only rows of its input |
| `PaymentService.Views` | src/Services/PaymentService/Services/PaymentService.cs:331-346 | the projection maps each row, in order, to its view |
| `PaymentService.AccountTransactions` | src/Services/PaymentService/Services/PaymentService.cs:320-356 | the listing counts every matching row, echoes page and size, holds at most a page of rows, each involving the account, newest first |
| `PaymentService.PageInvolvesAndOrdered` | src/Services/PaymentService/Services/PaymentService.cs:322-330 | a page of the sorted matching rows holds only rows of the account, newest first |
| `PaymentService.PaymentService.constructor` | src/Services/PaymentService/Services/PaymentService.cs:19-27 | the service keeps the given context and endpoint |
| `PaymentService.PaymentService.TransferMoney` | src/Services/PaymentService/Services/PaymentService.cs:29-162 | the method returns what `TransferEffect` says, leaves the store in its state, publishes its events, and keeps the store well formed |
| `PaymentService.PaymentService.RunTransferUnit` | src/Services/PaymentService/Services/PaymentService.cs:76-161 | the unit of work with its catch branch ends as the transfer function says |
| `PaymentService.PaymentService.PublishTransferEvents` | src/Services/PaymentService/Services/PaymentService.cs:102-138 | the three events go out in order until the throwing step, with the completion save between the second and the third |
| `PaymentService.PaymentService.RollbackTransfer` | src/Services/PaymentService/Services/PaymentService.cs:164-267 | the method returns what `RollbackEffect` says, leaves the store in its state, publishes its events, and keeps the store well formed |
| `PaymentService.PaymentService.RunRollbackUnit` | src/Services/PaymentService/Services/PaymentService.cs:211-266 | the rollback's unit of work with its catch branch ends as the rollback function says |
| `PaymentService.PaymentService.PublishRollbackEvents` | src/Services/PaymentService/Services/PaymentService.cs:226-245 | the two rollback events go out in order until the throwing step |
| `PaymentService.PaymentService.GetAccount` | src/Services/PaymentService/Services/PaymentService.cs:269-290 | the account query returns the account's view exactly when the id is stored, and null otherwise |
| `PaymentService.PaymentService.GetTransaction` | src/Services/PaymentService/Services/PaymentService.cs:292-318 | the transaction query returns the view of the first row with the id, and null exactly when there is none |
| `PaymentService.PaymentService.GetAccountTransactions` | src/Services/PaymentService/Services/PaymentService.cs:320-356 | the listing query returns the listing of the current table and counts every row of the account |
| `TransferProperties.GuardOrder` | src/Services/PaymentService/Services/PaymentService.cs:39-74 | missing or inactive payer, then missing or inactive payee, then a short balance are refused in that order, each with its message, with no change and nothing published |
| `TransferProperties.ExactBalanceAccepted` | src/Services/PaymentService/Services/PaymentService.cs:65 | a balance equal to the amount is enough and ends at zero |
| `TransferProperties.DistinctAccountsMoveMoney` | src/Services/PaymentService/Services/PaymentService.cs:93-100 | between two accounts, the payer is debited, the payee credited, both get new tokens, their sum is kept, and no other account changes |
| `TransferProperties.SameAccountKeepsBalance` | src/Services/PaymentService/Services/PaymentService.cs:39-43 | with one account on both sides the balance ends where it began, but the row is written with the second token |
| `TransferProperties.TransferConservesTotal` | src/Services/PaymentService/Services/PaymentService.cs:92-100 | no transfer, successful or not, changes the sum of all balances |
| `TransferProperties.TransferRecordsOneRow` | src/Services/PaymentService/Services/PaymentService.cs:77-128 | success appends exactly one row: a `Completed` transfer copying the command, stamped with the completion time, found under its id |
| `TransferProperties.TransferEventSequence` | src/Services/PaymentService/Services/PaymentService.cs:105-138 | success publishes `MoneyDebited`, `MoneyCredited` and `TransferCompleted` in order, with the post-debit and post-credit balances |
| `TransferProperties.FailedTransferKeepsState` | src/Services/PaymentService/Services/PaymentService.cs:150-160 | a throw past the guards returns the internal error with the store unchanged, and the events out before the throw stay out; a taken id fails before any event |
| `TransferProperties.ReadFaultFailsFirst` | src/Services/PaymentService/Services/PaymentService.cs:39-43 | a throwing account read is the internal error, before any guard |
| `TransferProperties.CommitFaultLeaksEvents` | src/Services/PaymentService/Services/PaymentService.cs:130-140 | a throwing commit leaves all three events, `TransferCompleted` among them, published for a transfer the store does not hold |
| `RollbackProperties.RollbackRejections` | src/Services/PaymentService/Services/PaymentService.cs:173-209 | an unknown id, a row not `Completed`, and missing accounts are refused in that order with their messages and no change |
| `RollbackProperties.RollbackReverses` | src/Services/PaymentService/Services/PaymentService.cs:211-222 | success credits the payer and debits the payee without a balance check (one account on both sides keeps its balance and takes the second token), and rewrites only that row, as `RolledBack` with the time and reason |
| `RollbackProperties.RollbackEventSequence` | src/Services/PaymentService/Services/PaymentService.cs:227-245 | success publishes `MoneyRefunded` with the payer's new balance, then `TransferRollbackCompleted` |
| `RollbackProperties.FailedRollbackKeepsState` | src/Services/PaymentService/Services/PaymentService.cs:256-265 | a throw past the guards returns the internal error with the store unchanged, and events out before the throw stay out |
| `RollbackProperties.RollbackConservesTotal` | src/Services/PaymentService/Services/PaymentService.cs:211-218 | no rollback changes the sum of all balances |
| `RollbackProperties.ReversalUndoesTransfer` | src/Services/PaymentService/Services/PaymentService.cs:212-216 | reversing a transfer's writes restores every balance, one account or two |
| `RollbackProperties.TransferThenRollbackRestoresBalances` | src/Services/PaymentService/Services/PaymentService.cs:164-247 | rolling back a transfer that just succeeded succeeds, restores every balance, keeps the earlier rows and leaves the transfer's row, the last one, `RolledBack` |
| `RollbackProperties.SecondRollbackRejected` | src/Services/PaymentService/Services/PaymentService.cs:186-194 | a second rollback of the same transaction is refused as not rollbackable |
| `Scenarios.TransferAndRollBack` | src/Services/PaymentService/Services/PaymentService.cs:29-267 | 5,000 and 3,000 become 4,000 and 4,000 by a transfer of 1,000, and 5,000 and 3,000 again by its rollback |
| `Scenarios.RollbackOverdrawsPayee` | src/Services/PaymentService/Services/PaymentService.cs:197-218 | a rollback against an emptied, inactive payee succeeds and leaves it at -1,000 |
| `Scenarios.NegativeAmountOverdrawsPayee` | src/Services/PaymentService/Services/PaymentService.cs:65 | a transfer of -1,000 between two empty accounts succeeds, crediting the payer and overdrawing the payee |
| `ListingProperties.PageFilledUpToTotalPages` | src/Shared/Shared.Domain/Queries/PaymentQueries.cs:57 | for a positive size, a page from the first on holds rows exactly when it is not past the page count |
| `ListingProperties.PageCountAgrees` | src/Services/PaymentService/Services/PaymentService.cs:328-330 | the same for a page of any row sequence |
| `ListingProperties.PageIsSlice` | src/Services/PaymentService/Services/PaymentService.cs:329-330 | for page 1 on and a positive size, a page is empty when `(page - 1) * pageSize` is past the end; otherwise it holds the size or what is left, whichever is fewer, and those are the rows from that position on, in order |
| `ListingProperties.PageViewsAreSlice` | src/Services/PaymentService/Services/PaymentService.cs:328-346 | the same for the views of a page of any row sequence, with the sequence's length as the count |
| `ListingProperties.ListingIsSlice` | src/Services/PaymentService/Services/PaymentService.cs:320-356 | for page 1 on and a positive size, the listing holds no rows past `totalCount`; otherwise it holds the size or what is left of `totalCount`, whichever is fewer, and these are the views of the account's rows, newest first, from `(page - 1) * pageSize` on |
| `ListingProperties.PageNonEmpty` | src/Services/PaymentService/Services/PaymentService.cs:329-330 | a page is non-empty exactly when it starts before the last row |
| `ListingProperties.PageWithinTotalPages` | src/Shared/Shared.Domain/Queries/PaymentQueries.cs:57 | a page starts before the last row exactly when it is not past the page count |
| `ListingProperties.RowOnItsPage` | src/Services/PaymentService/Services/PaymentService.cs:329-330 | row k is at position k mod size of page k div size plus one |
| `ListingProperties.RowOnSomePage` | src/Services/PaymentService/Services/PaymentService.cs:329-330 | every row is on some page from the first on |
| `ListingProperties.EveryRowListed` | src/Services/PaymentService/Services/PaymentService.cs:320-356 | every row involving the account is shown, as its view, on some page |
| `AccountService.OpenedAccount` | src/Services/PaymentService/Services/AccountService.cs:24-35 | a new account is active, with the given number, holder, balance and currency, a fresh id and token, and created and updated now |
| `AccountService.OpenKeepsWellFormed` | src/Services/PaymentService/Data/PaymentDbContext.cs:22-29 | an account under a free key and a free number keeps the store well formed |
| `AccountService.AccountService.constructor` | src/Services/PaymentService/Services/AccountService.cs:11-14 | the service keeps the given context |
| `AccountService.AccountService.GetAccount` | src/Services/PaymentService/Services/AccountService.cs:16-20 | returns the stored row, active or not, and nothing exactly when the id is not stored |
| `AccountService.AccountService.CreateAccount` | src/Services/PaymentService/Services/AccountService.cs:22-41 | the account is stored and returned exactly when the save succeeds and key and number are free; otherwise the call throws with nothing stored |
| `AccountService.AccountService.UpdateAccountBalance` | src/Services/PaymentService/Services/AccountService.cs:43-54 | a missing account gives false without a save; otherwise only that account is written, with exactly the new balance, whatever its sign |
| `AccountService.AccountService.DebitAccount` | src/Services/PaymentService/Services/AccountService.cs:56-67 | false, with nothing changed, exactly when the account is missing or short; otherwise only that account is debited, and its balance stays non-negative |
| `AccountService.AccountService.CreditAccount` | src/Services/PaymentService/Services/AccountService.cs:69-80 | false exactly when the account is missing; otherwise only that account is credited |
| `TransactionService.NewTransaction` | src/Services/PaymentService/Services/TransactionService.cs:18-29 | a new row is a `Pending` transfer created now, copying parties, amount, currency and description, with the optional fields unset |
| `TransactionService.WithStatus` | src/Services/PaymentService/Services/TransactionService.cs:50-60 | any status is applied; `Completed` also stamps completion, `Failed` stamps failure time and reason, and any other status changes only the status |
| `TransactionService.TransactionService.constructor` | src/Services/PaymentService/Services/TransactionService.cs:11-14 | the service keeps the given context |
| `TransactionService.TransactionService.CreateTransaction` | src/Services/PaymentService/Services/TransactionService.cs:16-35 | the row is appended and returned exactly when the save succeeds and the id is unused; otherwise the call throws with nothing stored |
| `TransactionService.TransactionService.GetTransaction` | src/Services/PaymentService/Services/TransactionService.cs:37-41 | returns the first stored row with the id, and nothing exactly when no row has it |
| `TransactionService.TransactionService.UpdateTransactionStatus` | src/Services/PaymentService/Services/TransactionService.cs:43-64 | an unknown id changes nothing and saves nothing; otherwise only the first row with the id is rewritten with the new status |
| `DemoController.TransferMoney` | src/Services/PaymentService/Controllers/DemoController.cs:84-107 | 200 with success and the new id exactly when the amount is positive and the accounts differ; otherwise 400 without an id, and a non-positive amount is reported before a same-account request |

## Left out

- Concurrency is not modelled. This covers the isolation of `BeginTransactionAsync` and concurrent requests on one account. Calls run one after another.
- `Version` is only a string rewritten on each write. The context configures no concurrency token, so nothing ever compares it, and the model does not either.
- A `BeginTransactionAsync` that throws is not modelled. It sits outside the `try`, so it would leave the call by an exception.
- A `RollbackAsync` that throws inside either catch block is not modelled. Its exception would leave the call instead of the internal-error result.
- Sub-cent amounts are not modelled. `TransferMoneyCommand.Amount` and the demonstration request are `decimal`s of any scale, applied to the balances before rounding. The events then carry unrounded balances, and the columns store rounded ones. For such amounts the source does not keep the total or undo a transfer exactly, whereas `TransferProperties.TransferConservesTotal` and `RollbackProperties.ReversalUndoesTransfer` hold for the whole-cent model.
- Numeric overflow of the `decimal(18,2)` columns is not modelled. A balance too large for them makes the save throw. The model reaches that outcome only through the fault parameter, and the success conditions of `PaymentService.TransferEffect` name only the key failures.
- Message-bus delivery is reduced to appending to a sequence. Event `Id` and `Timestamp` are not modelled, since nothing in the ledger reads them.
- Fresh GUIDs and `DateTime.UtcNow` are parameters. One clock reading stands for all the readings of one call, even though the source reads the clock separately for each field.
- Logging, the notification services and the `Message` text are not modelled. The same goes for the `Thread.Sleep` of the demonstration endpoint and its other endpoints.
- Column lengths are stated as predicates (`AccountFitsSchema`, `TransactionFitsSchema`) but not enforced on save. The provider enforces them and reports a violation as a failing save, which `saveFails` already covers. The same holds for the foreign keys from a transaction to its accounts.
- Of the database configuration, only the primary keys and the unique account-number index are modelled.
- The context's change tracker is not modelled. `RollbackAsync` in the catch blocks of `TransferMoneyAsync` and `RollbackTransferAsync` resets the database but not the tracker. The accounts and the transaction row that the failed call read stay tracked as modified, with its balances, tokens and status. After a save that throws in the helper services, the added or modified entity likewise stays tracked. A later save on the same context would write those changes. `Ledger.PaymentDbContext.Restore` instead puts the whole context back to what was committed, so the model behaves as if the next call started from a clean context.
- Rows with the same creation time keep their table order in the listing. The source leaves that order to the database.
- `PaymentService.SkipCount`: the product `(page - 1) * pageSize` is unbounded here. The source computes it as a 32-bit `int`, which wraps: page 107374184 of size 20 gives a negative offset in the source and an empty page in the model.
- `PaymentService.SkipCount`: a negative skip count skips nothing, and a non-positive page size takes nothing. A relational provider may refuse a negative `OFFSET` or `LIMIT` with an error instead; that error path is not modelled.
- `PaymentService.PageOf` does not state its length or its rows in its own contract. `ListingProperties.PageIsSlice` states both, and `ListingProperties.ListingIsSlice` lifts them to the listing.
- `Queries.TotalPages` is modelled only for a positive page size, with integer ceiling division. The source's floating-point division gives other values for a page size of zero or less.
- `TransactionService.TransactionService.UpdateTransactionStatus` returns whether a row was found. The source returns nothing.
- C# default parameter values are not modelled. The model's operations take every argument explicitly, and the defaults appear as the `New…` helper functions.
- `GetAccountAsync` and `GetTransactionAsync` return `null` for a missing row; the model returns `None`.
