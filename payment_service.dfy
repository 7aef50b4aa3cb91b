/**
 * The payment ledger service: money transfer and transfer rollback, each run
 * as one database transaction with events published along the way, and the
 * paged transaction listing of an account.
 *
 * Each operation is given twice: as a function of the committed state that
 * says what the call results in (`TransferEffect`, `RollbackEffect`, `AccountTransactions`),
 * and as a method of the `PaymentService` class that performs the steps in the
 * source's order on the store and the publish endpoint and is proved to end
 * where the function says.
 */
module PaymentService {
  import opened Wrappers
  import opened Models
  import opened Ledger
  import opened Commands
  import opened Events
  import opened Queries

  const FromAccountMissing: string := "From account not found or inactive"
  const ToAccountMissing: string := "To account not found or inactive"
  const InsufficientBalance: string := "Insufficient balance"
  const TransferInternalError: string := "Transfer failed due to an internal error"
  const TransactionNotFound: string := "Transaction not found"
  const NotRollbackable: string := "Transaction is not in a rollbackable state"
  const AccountsNotFound: string := "Accounts not found"
  const RollbackInternalError: string := "Rollback failed due to an internal error"

  // ============================================================== transfer

  /**
   * The steps of a transfer at which an exception can be thrown. A thrown
   * exception takes the catch branch, which rolls the database transaction
   * back; what was already published stays published.
   */
  datatype TransferStep =
    | ReadAccounts      // the two account queries
    | SaveDebitCredit   // adding the row and the first SaveChangesAsync
    | PublishDebited
    | PublishCredited
    | SaveCompletion    // the second SaveChangesAsync
    | PublishCompleted
    | CommitTransfer

  /** How many of the three transfer events are out when `step` throws. */
  function TransferEventsBefore(step: TransferStep): (n: nat)
    ensures n <= 3
  {
    match step
    case ReadAccounts => 0
    case SaveDebitCredit => 0
    case PublishDebited => 0
    case PublishCredited => 1
    case SaveCompletion => 2
    case PublishCompleted => 2
    case CommitTransfer => 3
  }

  /** What a transfer call returns, the committed state after it, and what it published. */
  datatype TransferOutcome = TransferOutcome(
    result: TransferMoneyResult,
    state: LedgerState,
    events: seq<Envelope>)

  /** A failed transfer: nothing committed, `Guid.Empty` as the id. */
  function TransferFailure(s: LedgerState, message: string, published: seq<Envelope>): TransferOutcome {
    TransferOutcome(TransferMoneyResult(false, EmptyGuid, Some(message)), s, published)
  }

  /** The guards a transfer passes, in the order the source tests them. */
  predicate PassesTransferGuards(s: LedgerState, c: TransferMoneyCommand) {
    IsActiveAccount(s.accounts, c.fromAccountId)
    && IsActiveAccount(s.accounts, c.toAccountId)
    && s.accounts[c.fromAccountId].balance >= c.amount
  }

  /** The transaction row as first added, in `Processing`. */
  function TransferRecord(c: TransferMoneyCommand, txId: Guid, now: Instant): (t: Transaction)
    ensures t.id == txId && t.status == Processing && t.transactionType == Transfer && t.createdAt == now
    ensures t.fromAccountId == c.fromAccountId && t.toAccountId == c.toAccountId && t.amount == c.amount
    ensures t.currency == c.currency && t.description == c.description && t.correlationId == Some(c.correlationId)
    ensures t.completedAt.None? && t.failedAt.None? && t.failureReason.None?
  {
    Transaction(txId, c.fromAccountId, c.toAccountId, c.amount, c.currency, c.description,
                Processing, Transfer, now, None, None, None, Some(c.correlationId))
  }

  /** The row once the transfer marks it done. */
  function CompletedRecord(t: Transaction, now: Instant): (r: Transaction)
    ensures r.status == Completed && r.completedAt == Some(now)
    ensures r.(status := t.status, completedAt := t.completedAt) == t
  {
    t.(status := Completed, completedAt := Some(now))
  }

  /**
   * The debit and then the credit, each applied to the row as the previous
   * write left it. When both ids name one account the two writes land on the
   * same row, as they do on the one tracked entity in the source.
   */
  function TransferBalances(accounts: map<Guid, Account>, c: TransferMoneyCommand,
                            fromVersion: Guid, toVersion: Guid, now: Instant): (m: map<Guid, Account>)
    requires c.fromAccountId in accounts && c.toAccountId in accounts
    ensures m.Keys == accounts.Keys
  {
    var afterDebit := accounts[c.fromAccountId := Debited(accounts[c.fromAccountId], c.amount, fromVersion, now)];
    afterDebit[c.toAccountId := Credited(afterDebit[c.toAccountId], c.amount, toVersion, now)]
  }

  /** The three events of a transfer; balances are read after both writes. */
  function TransferEvents(c: TransferMoneyCommand, txId: Guid, after: map<Guid, Account>): seq<Envelope>
    requires c.fromAccountId in after && c.toAccountId in after
  {
    var from, to := after[c.fromAccountId], after[c.toAccountId];
    [ Stamped(c.correlationId, MoneyDebited(BalanceChange(txId, from.id, c.amount, from.balance, c.currency))),
      Stamped(c.correlationId, MoneyCredited(BalanceChange(txId, to.id, c.amount, to.balance, c.currency))),
      Stamped(c.correlationId, TransferCompleted(TransferFacts(txId, c.fromAccountId, c.toAccountId, c.amount, c.currency))) ]
  }

  /**
   * `TransferMoneyAsync`. `txId`, `fromVersion` and `toVersion` are the GUIDs
   * the call generates, `now` its clock reading, and `fault` the step that
   * throws, if any. A new row whose id the table already holds violates the
   * primary key, so the first save throws.
   */
  function TransferEffect(s: LedgerState, c: TransferMoneyCommand, txId: Guid, fromVersion: Guid, toVersion: Guid,
                    now: Instant, fault: Option<TransferStep>): (r: TransferOutcome)
    ensures r.result.success <==>
              fault.None? && PassesTransferGuards(s, c) && FindTransaction(s.transactions, txId).None?
    ensures r.result.success ==> r.result.transactionId == txId && r.result.errorMessage.None?
    ensures !r.result.success ==>
              r.state == s && r.result.transactionId == EmptyGuid && r.result.errorMessage.Some?
    ensures |r.events| <= 3
    ensures forall e :: e in r.events ==> e.correlationId == c.correlationId && !e.body.TransferFailed?
  {
    if fault == Some(ReadAccounts) then TransferFailure(s, TransferInternalError, [])
    else if !IsActiveAccount(s.accounts, c.fromAccountId) then TransferFailure(s, FromAccountMissing, [])
    else if !IsActiveAccount(s.accounts, c.toAccountId) then TransferFailure(s, ToAccountMissing, [])
    else if s.accounts[c.fromAccountId].balance < c.amount then TransferFailure(s, InsufficientBalance, [])
    else TransferUnit(s, c, txId, fromVersion, toVersion, now, fault)
  }

  /**
   * The database transaction of a transfer that passed its guards: the row is
   * added and both accounts written, then events go out between the saves.
   */
  function TransferUnit(s: LedgerState, c: TransferMoneyCommand, txId: Guid, fromVersion: Guid, toVersion: Guid,
                        now: Instant, fault: Option<TransferStep>): TransferOutcome
    requires PassesTransferGuards(s, c)
  {
    var after := TransferBalances(s.accounts, c, fromVersion, toVersion, now);
    var events := TransferEvents(c, txId, after);
    if FindTransaction(s.transactions, txId).Some? then TransferFailure(s, TransferInternalError, [])
    else if fault.Some? then TransferFailure(s, TransferInternalError, events[..TransferEventsBefore(fault.value)])
    else
      var row := CompletedRecord(TransferRecord(c, txId, now), now);
      TransferOutcome(TransferMoneyResult(true, txId, None), LedgerState(after, s.transactions + [row]), events)
  }

  /**
   * Unfolding helper: once the read succeeds and the guards pass,
   * `TransferEffect` is the unit of work `TransferUnit`. Callers use it to
   * reason about the unit of work alone.
   */
  lemma TransferEffectPastGuards(s: LedgerState, c: TransferMoneyCommand, txId: Guid, fromVersion: Guid,
                                 toVersion: Guid, now: Instant, fault: Option<TransferStep>)
    requires fault != Some(ReadAccounts) && PassesTransferGuards(s, c)
    ensures TransferEffect(s, c, txId, fromVersion, toVersion, now, fault)
            == TransferUnit(s, c, txId, fromVersion, toVersion, now, fault)
  {
  }

  lemma TransferPreservesWellFormed(s: LedgerState, c: TransferMoneyCommand, txId: Guid, fromVersion: Guid,
                                    toVersion: Guid, now: Instant, fault: Option<TransferStep>)
    requires WellFormed(s)
    ensures WellFormed(TransferEffect(s, c, txId, fromVersion, toVersion, now, fault).state)
  {
    if fault != Some(ReadAccounts) && PassesTransferGuards(s, c) {
      TransferEffectPastGuards(s, c, txId, fromVersion, toVersion, now, fault);
      TransferUnitPreservesWellFormed(s, c, txId, fromVersion, toVersion, now, fault);
    }
  }

  lemma TransferUnitPreservesWellFormed(s: LedgerState, c: TransferMoneyCommand, txId: Guid, fromVersion: Guid,
                                        toVersion: Guid, now: Instant, fault: Option<TransferStep>)
    requires WellFormed(s) && PassesTransferGuards(s, c)
    ensures WellFormed(TransferUnit(s, c, txId, fromVersion, toVersion, now, fault).state)
  {
    if fault.None? && FindTransaction(s.transactions, txId).None? {
      var from, to := c.fromAccountId, c.toAccountId;
      var s1 := s.(accounts := s.accounts[from := Debited(s.accounts[from], c.amount, fromVersion, now)]);
      RebalancedKeepsWellFormed(s, from, s.accounts[from].balance - c.amount, fromVersion, now);
      RebalancedKeepsWellFormed(s1, to, s1.accounts[to].balance + c.amount, toVersion, now);
      var s2 := s1.(accounts := s1.accounts[to := Credited(s1.accounts[to], c.amount, toVersion, now)]);
      var row := CompletedRecord(TransferRecord(c, txId, now), now);
      AppendKeepsUniqueIds(s.transactions, row);
      WithRowsWellFormed(s2, s.transactions + [row]);
      assert TransferUnit(s, c, txId, fromVersion, toVersion, now, fault).state
             == s2.(transactions := s.transactions + [row]);
    }
  }

  // ============================================================== rollback

  /** The steps of a rollback at which an exception can be thrown. */
  datatype RollbackStep =
    | ReadTransaction        // the transaction query
    | ReadRollbackAccounts   // the two account lookups
    | SaveReversal           // SaveChangesAsync
    | PublishRefunded
    | PublishRollbackCompleted
    | CommitRollback

  /** How many of the two rollback events are out when `step` throws. */
  function RollbackEventsBefore(step: RollbackStep): (n: nat)
    ensures n <= 2
  {
    match step
    case ReadTransaction => 0
    case ReadRollbackAccounts => 0
    case SaveReversal => 0
    case PublishRefunded => 0
    case PublishRollbackCompleted => 1
    case CommitRollback => 2
  }

  datatype RollbackOutcome = RollbackOutcome(
    result: RollbackTransferResult,
    state: LedgerState,
    events: seq<Envelope>)

  function RollbackFailure(s: LedgerState, message: string, published: seq<Envelope>): RollbackOutcome {
    RollbackOutcome(RollbackTransferResult(false, Some(message)), s, published)
  }

  /**
   * The guards a rollback passes: the row exists, is `Completed`, and both of
   * its accounts exist. Whether they are active is not looked at.
   */
  predicate Rollbackable(s: LedgerState, transactionId: Guid) {
    match FindTransaction(s.transactions, transactionId)
    case None => false
    case Some(i) =>
      var t := s.transactions[i];
      t.status == Completed && t.fromAccountId in s.accounts && t.toAccountId in s.accounts
  }

  /**
   * The refund to the payer and then the debit of the payee, each on the row
   * as the previous write left it. The payee's balance is not checked.
   */
  function ReversedBalances(accounts: map<Guid, Account>, t: Transaction,
                            fromVersion: Guid, toVersion: Guid, now: Instant): (m: map<Guid, Account>)
    requires t.fromAccountId in accounts && t.toAccountId in accounts
    ensures m.Keys == accounts.Keys
  {
    var afterRefund := accounts[t.fromAccountId := Credited(accounts[t.fromAccountId], t.amount, fromVersion, now)];
    afterRefund[t.toAccountId := Debited(afterRefund[t.toAccountId], t.amount, toVersion, now)]
  }

  function RolledBackRecord(t: Transaction, reason: string, now: Instant): (r: Transaction)
    ensures r.status == RolledBack && r.failedAt == Some(now) && r.failureReason == Some(reason)
    ensures r.(status := t.status, failedAt := t.failedAt, failureReason := t.failureReason) == t
  {
    t.(status := RolledBack, failedAt := Some(now), failureReason := Some(reason))
  }

  /** The two rollback events; they carry the command's correlation id, not the row's. */
  function RollbackEvents(c: RollbackTransferCommand, t: Transaction, after: map<Guid, Account>): seq<Envelope>
    requires t.fromAccountId in after
  {
    var from := after[t.fromAccountId];
    [ Stamped(c.correlationId, MoneyRefunded(BalanceChange(t.id, from.id, t.amount, from.balance, t.currency))),
      Stamped(c.correlationId, TransferRollbackCompleted(
                TransferFacts(t.id, t.fromAccountId, t.toAccountId, t.amount, t.currency))) ]
  }

  /** `RollbackTransferAsync`, with the generated GUIDs, the clock reading and the throwing step as parameters. */
  function RollbackEffect(s: LedgerState, c: RollbackTransferCommand, fromVersion: Guid, toVersion: Guid,
                    now: Instant, fault: Option<RollbackStep>): (r: RollbackOutcome)
    ensures r.result.success <==> fault.None? && Rollbackable(s, c.transactionId)
    ensures r.result.success ==> r.result.errorMessage.None?
    ensures !r.result.success ==> r.state == s && r.result.errorMessage.Some?
    ensures |r.events| <= 2
    ensures forall e :: e in r.events ==> e.correlationId == c.correlationId
  {
    if fault == Some(ReadTransaction) then RollbackFailure(s, RollbackInternalError, [])
    else match FindTransaction(s.transactions, c.transactionId)
      case None => RollbackFailure(s, TransactionNotFound, [])
      case Some(i) =>
        var t := s.transactions[i];
        if t.status != Completed then RollbackFailure(s, NotRollbackable, [])
        else if fault == Some(ReadRollbackAccounts) then RollbackFailure(s, RollbackInternalError, [])
        else if t.fromAccountId !in s.accounts || t.toAccountId !in s.accounts then
          RollbackFailure(s, AccountsNotFound, [])
        else RollbackUnit(s, c, fromVersion, toVersion, now, fault)
  }

  /**
   * The writes of a rollback that passed its guards: both accounts and the
   * row change in one save, then the two events go out.
   */
  function RollbackUnit(s: LedgerState, c: RollbackTransferCommand, fromVersion: Guid, toVersion: Guid,
                        now: Instant, fault: Option<RollbackStep>): RollbackOutcome
    requires Rollbackable(s, c.transactionId)
  {
    var i := FindTransaction(s.transactions, c.transactionId).value;
    var t := s.transactions[i];
    var after := ReversedBalances(s.accounts, t, fromVersion, toVersion, now);
    var events := RollbackEvents(c, t, after);
    if fault.Some? then RollbackFailure(s, RollbackInternalError, events[..RollbackEventsBefore(fault.value)])
    else
      var rows := s.transactions[i := RolledBackRecord(t, c.reason, now)];
      RollbackOutcome(RollbackTransferResult(true, None), LedgerState(after, rows), events)
  }

  /**
   * Unfolding helper: once the reads succeed and the row is rollbackable,
   * `RollbackEffect` is the unit of work `RollbackUnit`.
   */
  lemma RollbackEffectPastGuards(s: LedgerState, c: RollbackTransferCommand, fromVersion: Guid, toVersion: Guid,
                                 now: Instant, fault: Option<RollbackStep>)
    requires Rollbackable(s, c.transactionId)
    requires fault != Some(ReadTransaction) && fault != Some(ReadRollbackAccounts)
    ensures RollbackEffect(s, c, fromVersion, toVersion, now, fault)
            == RollbackUnit(s, c, fromVersion, toVersion, now, fault)
  {
  }

  lemma RollbackPreservesWellFormed(s: LedgerState, c: RollbackTransferCommand, fromVersion: Guid,
                                    toVersion: Guid, now: Instant, fault: Option<RollbackStep>)
    requires WellFormed(s)
    ensures WellFormed(RollbackEffect(s, c, fromVersion, toVersion, now, fault).state)
  {
    if Rollbackable(s, c.transactionId) && fault != Some(ReadTransaction) && fault != Some(ReadRollbackAccounts) {
      RollbackEffectPastGuards(s, c, fromVersion, toVersion, now, fault);
      RollbackUnitPreservesWellFormed(s, c, fromVersion, toVersion, now, fault);
    }
  }

  lemma RollbackUnitPreservesWellFormed(s: LedgerState, c: RollbackTransferCommand, fromVersion: Guid,
                                        toVersion: Guid, now: Instant, fault: Option<RollbackStep>)
    requires WellFormed(s) && Rollbackable(s, c.transactionId)
    ensures WellFormed(RollbackUnit(s, c, fromVersion, toVersion, now, fault).state)
  {
    if fault.None? {
      var i := FindTransaction(s.transactions, c.transactionId).value;
      var t := s.transactions[i];
      var from, to := t.fromAccountId, t.toAccountId;
      var s1 := s.(accounts := s.accounts[from := Credited(s.accounts[from], t.amount, fromVersion, now)]);
      RebalancedKeepsWellFormed(s, from, s.accounts[from].balance + t.amount, fromVersion, now);
      RebalancedKeepsWellFormed(s1, to, s1.accounts[to].balance - t.amount, toVersion, now);
      var s2 := s1.(accounts := s1.accounts[to := Debited(s1.accounts[to], t.amount, toVersion, now)]);
      var rows := s.transactions[i := RolledBackRecord(t, c.reason, now)];
      RowUpdateKeepsUniqueIds(s.transactions, i, RolledBackRecord(t, c.reason, now));
      WithRowsWellFormed(s2, rows);
      assert RollbackUnit(s, c, fromVersion, toVersion, now, fault).state == s2.(transactions := rows);
    }
  }

  // ================================================ the transaction listing

  predicate Involves(t: Transaction, accountId: Guid) {
    t.fromAccountId == accountId || t.toAccountId == accountId
  }

  /** `Where(t => t.FromAccountId == id || t.ToAccountId == id)`, keeping table order. */
  function RowsInvolving(rows: seq<Transaction>, accountId: Guid): (r: seq<Transaction>)
    ensures forall t :: t in r <==> t in rows && Involves(t, accountId)
    ensures forall t :: multiset(r)[t] == if Involves(t, accountId) then multiset(rows)[t] else 0
    decreases |rows|
  {
    if rows == [] then []
    else
      assert rows == [rows[0]] + rows[1..];
      (if Involves(rows[0], accountId) then [rows[0]] else []) + RowsInvolving(rows[1..], accountId)
  }

  ghost predicate NewestFirst(rows: seq<Transaction>) {
    forall i, j :: 0 <= i < j < |rows| ==> rows[i].createdAt >= rows[j].createdAt
  }

  /** A row no older than the head of a newest-first sequence may go in front of it. */
  lemma PrependNewestFirst(t: Transaction, rows: seq<Transaction>)
    requires NewestFirst(rows) && (rows == [] || t.createdAt >= rows[0].createdAt)
    ensures NewestFirst([t] + rows)
  {
    var r := [t] + rows;
    forall i, j | 0 <= i < j < |r|
      ensures r[i].createdAt >= r[j].createdAt
    {
      if i == 0 && j > 1 {
        assert r[j] == rows[j - 1] && rows[0].createdAt >= rows[j - 1].createdAt;
      }
    }
  }

  /** Places `t` before every row that is not newer than it. */
  function InsertNewestFirst(t: Transaction, sorted: seq<Transaction>): (r: seq<Transaction>)
    requires NewestFirst(sorted)
    ensures NewestFirst(r) && multiset(r) == multiset(sorted) + multiset{t}
    ensures r[0] == t || (sorted != [] && r[0] == sorted[0])
    decreases |sorted|
  {
    if sorted == [] || t.createdAt >= sorted[0].createdAt then
      PrependNewestFirst(t, sorted);
      [t] + sorted
    else
      var rest := InsertNewestFirst(t, sorted[1..]);
      assert sorted == [sorted[0]] + sorted[1..];
      PrependNewestFirst(sorted[0], rest);
      [sorted[0]] + rest
  }

  /**
   * `OrderByDescending(t => t.CreatedAt)`: newest first; rows created at the
   * same instant keep their table order.
   */
  function SortNewestFirst(rows: seq<Transaction>): (r: seq<Transaction>)
    ensures NewestFirst(r) && multiset(r) == multiset(rows)
    decreases |rows|
  {
    if rows == [] then []
    else
      assert rows == [rows[0]] + rows[1..];
      InsertNewestFirst(rows[0], SortNewestFirst(rows[1..]))
  }

  /** The number of rows `Skip((page - 1) * pageSize)` passes over; a negative count skips nothing. */
  function SkipCount(total: nat, page: int, pageSize: int): (k: nat)
    ensures k <= total
  {
    var want := (page - 1) * pageSize;
    if want <= 0 then 0 else if want >= total then total else want
  }

  /** `Skip((page - 1) * pageSize).Take(pageSize)`. */
  function PageOf(rows: seq<Transaction>, page: int, pageSize: int): (r: seq<Transaction>)
    ensures pageSize <= 0 ==> r == []
    ensures pageSize > 0 ==> |r| <= pageSize
    ensures forall t :: t in r ==> t in rows
  {
    var skip := SkipCount(|rows|, page, pageSize);
    var take := if pageSize <= 0 then 0 else if pageSize >= |rows| - skip then |rows| - skip else pageSize;
    rows[skip..skip + take]
  }

  /** `Select(t => new GetTransactionResult { ... })`: each row as its view, in order. */
  function Views(rows: seq<Transaction>): (r: seq<GetTransactionResult>)
    ensures |r| == |rows| && forall i :: 0 <= i < |rows| ==> r[i] == TransactionView(rows[i])
  {
    if rows == [] then [] else [TransactionView(rows[0])] + Views(rows[1..])
  }

  /** `GetAccountTransactionsAsync` over the table `rows`. */
  function AccountTransactions(rows: seq<Transaction>, q: GetAccountTransactionsQuery): (r: GetAccountTransactionsResult)
    ensures r.totalCount == |RowsInvolving(rows, q.accountId)|
    ensures r.page == q.page && r.pageSize == q.pageSize
    ensures q.pageSize > 0 ==> |r.transactions| <= q.pageSize
    ensures q.pageSize <= 0 ==> r.transactions == []
    ensures forall i :: 0 <= i < |r.transactions| ==>
              r.transactions[i].fromAccountId == q.accountId || r.transactions[i].toAccountId == q.accountId
    ensures forall i, j :: 0 <= i < j < |r.transactions| ==>
              r.transactions[i].createdAt >= r.transactions[j].createdAt
  {
    var matching := SortNewestFirst(RowsInvolving(rows, q.accountId));
    var page := PageOf(matching, q.page, q.pageSize);
    PageInvolvesAndOrdered(RowsInvolving(rows, q.accountId), matching, q);
    GetAccountTransactionsResult(Views(page), |matching|, q.page, q.pageSize)
  }

  /** A page of the sorted matching rows holds matching rows only, newest first. */
  lemma PageInvolvesAndOrdered(involving: seq<Transaction>, matching: seq<Transaction>, q: GetAccountTransactionsQuery)
    requires forall t :: t in involving ==> Involves(t, q.accountId)
    requires multiset(matching) == multiset(involving) && NewestFirst(matching)
    ensures var page := PageOf(matching, q.page, q.pageSize);
            (forall i :: 0 <= i < |page| ==> Involves(page[i], q.accountId)) && NewestFirst(page)
  {
    var page := PageOf(matching, q.page, q.pageSize);
    forall i | 0 <= i < |page|
      ensures Involves(page[i], q.accountId)
    {
      assert page[i] in matching;
      assert page[i] in multiset(involving);
    }
    var skip := SkipCount(|matching|, q.page, q.pageSize);
    assert page == matching[skip..skip + |page|];
  }

  // ============================================================ the service

  class PaymentService {
    const context: PaymentDbContext
    const publishEndpoint: PublishEndpoint

    constructor (context: PaymentDbContext, publishEndpoint: PublishEndpoint)
      ensures this.context == context && this.publishEndpoint == publishEndpoint
    {
      this.context := context;
      this.publishEndpoint := publishEndpoint;
    }

    /**
     * `TransferMoneyAsync`: the account reads and the three guards. A transfer
     * that passes them goes on in `RunTransferUnit`.
     */
    method TransferMoney(command: TransferMoneyCommand, txId: Guid, fromVersion: Guid, toVersion: Guid,
                         now: Instant, fault: Option<TransferStep>) returns (result: TransferMoneyResult)
      requires context.Valid()
      modifies context, publishEndpoint
      ensures context.Valid()
      ensures var o := TransferEffect(old(context.State()), command, txId, fromVersion, toVersion, now, fault);
              result == o.result && context.State() == o.state
              && publishEndpoint.published == old(publishEndpoint.published) + o.events
    {
      ghost var s := context.State();
      TransferPreservesWellFormed(s, command, txId, fromVersion, toVersion, now, fault);
      var from, to := command.fromAccountId, command.toAccountId;
      if fault == Some(ReadAccounts) {
        return TransferMoneyResult(false, EmptyGuid, Some(TransferInternalError));
      }
      if !IsActiveAccount(context.accounts, from) {
        return TransferMoneyResult(false, EmptyGuid, Some(FromAccountMissing));
      }
      if !IsActiveAccount(context.accounts, to) {
        return TransferMoneyResult(false, EmptyGuid, Some(ToAccountMissing));
      }
      if context.accounts[from].balance < command.amount {
        return TransferMoneyResult(false, EmptyGuid, Some(InsufficientBalance));
      }
      TransferEffectPastGuards(s, command, txId, fromVersion, toVersion, now, fault);
      result := RunTransferUnit(command, txId, fromVersion, toVersion, now, fault);
    }

    /**
     * The rest of `TransferMoneyAsync`. Changes to the tracked rows are held
     * in locals until a `SaveChangesAsync` writes them to the store; the catch
     * branch's `RollbackAsync` puts back what was committed when the call began.
     */
    method RunTransferUnit(command: TransferMoneyCommand, txId: Guid, fromVersion: Guid, toVersion: Guid,
                           now: Instant, fault: Option<TransferStep>) returns (result: TransferMoneyResult)
      requires PassesTransferGuards(context.State(), command) && fault != Some(ReadAccounts)
      modifies context, publishEndpoint
      ensures var o := TransferUnit(old(context.State()), command, txId, fromVersion, toVersion, now, fault);
              result == o.result && context.State() == o.state
              && publishEndpoint.published == old(publishEndpoint.published) + o.events
    {
      // BeginTransactionAsync
      var committedAccounts, committedRows := context.accounts, context.transactions;
      var from, to := command.fromAccountId, command.toAccountId;
      var record := TransferRecord(command, txId, now);
      var accounts := committedAccounts[from := Debited(committedAccounts[from], command.amount, fromVersion, now)];
      accounts := accounts[to := Credited(accounts[to], command.amount, toVersion, now)];
      assert accounts == TransferBalances(committedAccounts, command, fromVersion, toVersion, now);
      if FindTransaction(committedRows, txId).Some? || fault == Some(SaveDebitCredit) {
        return TransferMoneyResult(false, EmptyGuid, Some(TransferInternalError));
      }
      context.accounts, context.transactions := accounts, committedRows + [record];
      // the three messages, as built from the tracked rows after both writes
      var events := TransferEvents(command, txId, accounts);
      var published := PublishTransferEvents(events, committedRows + [CompletedRecord(record, now)], fault);
      if published < |events| || fault.Some? {
        // the catch branch: RollbackAsync
        context.Restore(committedAccounts, committedRows);
        return TransferMoneyResult(false, EmptyGuid, Some(TransferInternalError));
      }
      result := TransferMoneyResult(true, txId, None);
    }

    /**
     * The part of a transfer between the first save and the commit: the three
     * events go out with the second save between the second and the third,
     * until a step throws. Returns how many events are out.
     */
    method PublishTransferEvents(events: seq<Envelope>, completedRows: seq<Transaction>,
                                 fault: Option<TransferStep>) returns (published: nat)
      requires |events| == 3
      requires fault != Some(ReadAccounts) && fault != Some(SaveDebitCredit)
      modifies context`transactions, publishEndpoint
      ensures published == if fault.Some? then TransferEventsBefore(fault.value) else 3
      ensures publishEndpoint.published == old(publishEndpoint.published) + events[..published]
      ensures fault.None? ==> context.transactions == completedRows
    {
      published := 0;
      if fault == Some(PublishDebited) {
        return;
      }
      publishEndpoint.Publish(events[0]);
      published := 1;
      if fault == Some(PublishCredited) {
        return;
      }
      publishEndpoint.Publish(events[1]);
      published := 2;
      if fault == Some(SaveCompletion) {
        return;
      }
      context.transactions := completedRows;
      if fault == Some(PublishCompleted) {
        return;
      }
      publishEndpoint.Publish(events[2]);
      published := 3;
    }

    /**
     * `RollbackTransferAsync`: the reads and the guards. A rollback that
     * passes them goes on in `RunRollbackUnit`.
     */
    method RollbackTransfer(command: RollbackTransferCommand, fromVersion: Guid, toVersion: Guid,
                            now: Instant, fault: Option<RollbackStep>) returns (result: RollbackTransferResult)
      requires context.Valid()
      modifies context, publishEndpoint
      ensures context.Valid()
      ensures var o := RollbackEffect(old(context.State()), command, fromVersion, toVersion, now, fault);
              result == o.result && context.State() == o.state
              && publishEndpoint.published == old(publishEndpoint.published) + o.events
    {
      ghost var s := context.State();
      RollbackPreservesWellFormed(s, command, fromVersion, toVersion, now, fault);
      if fault == Some(ReadTransaction) {
        return RollbackTransferResult(false, Some(RollbackInternalError));
      }
      var found := FindTransaction(context.transactions, command.transactionId);
      if found.None? {
        return RollbackTransferResult(false, Some(TransactionNotFound));
      }
      var record := context.transactions[found.value];
      if record.status != Completed {
        return RollbackTransferResult(false, Some(NotRollbackable));
      }
      if fault == Some(ReadRollbackAccounts) {
        return RollbackTransferResult(false, Some(RollbackInternalError));
      }
      if record.fromAccountId !in context.accounts || record.toAccountId !in context.accounts {
        return RollbackTransferResult(false, Some(AccountsNotFound));
      }
      RollbackEffectPastGuards(s, command, fromVersion, toVersion, now, fault);
      result := RunRollbackUnit(command, fromVersion, toVersion, now, fault);
    }

    /** The rest of `RollbackTransferAsync`, with the catch branch restoring the committed state. */
    method RunRollbackUnit(command: RollbackTransferCommand, fromVersion: Guid, toVersion: Guid,
                           now: Instant, fault: Option<RollbackStep>) returns (result: RollbackTransferResult)
      requires Rollbackable(context.State(), command.transactionId)
      requires fault != Some(ReadTransaction) && fault != Some(ReadRollbackAccounts)
      modifies context, publishEndpoint
      ensures var o := RollbackUnit(old(context.State()), command, fromVersion, toVersion, now, fault);
              result == o.result && context.State() == o.state
              && publishEndpoint.published == old(publishEndpoint.published) + o.events
    {
      // BeginTransactionAsync
      var committedAccounts, committedRows := context.accounts, context.transactions;
      var i := FindTransaction(committedRows, command.transactionId).value;
      var record := committedRows[i];
      var from, to := record.fromAccountId, record.toAccountId;
      var accounts := committedAccounts[from := Credited(committedAccounts[from], record.amount, fromVersion, now)];
      accounts := accounts[to := Debited(accounts[to], record.amount, toVersion, now)];
      assert accounts == ReversedBalances(committedAccounts, record, fromVersion, toVersion, now);
      if fault == Some(SaveReversal) {
        return RollbackTransferResult(false, Some(RollbackInternalError));
      }
      context.accounts, context.transactions := accounts, committedRows[i := RolledBackRecord(record, command.reason, now)];
      // the two messages, as built from the tracked rows after the writes
      var events := RollbackEvents(command, record, accounts);
      var published := PublishRollbackEvents(events, fault);
      if fault.Some? {
        // the catch branch: RollbackAsync
        context.Restore(committedAccounts, committedRows);
        return RollbackTransferResult(false, Some(RollbackInternalError));
      }
      result := RollbackTransferResult(true, None);
    }

    /**
     * The part of a rollback between the save and the commit: the two events
     * go out until a step throws. Returns how many are out.
     */
    method PublishRollbackEvents(events: seq<Envelope>, fault: Option<RollbackStep>) returns (published: nat)
      requires |events| == 2
      requires fault != Some(ReadTransaction) && fault != Some(ReadRollbackAccounts) && fault != Some(SaveReversal)
      modifies publishEndpoint
      ensures published == if fault.Some? then RollbackEventsBefore(fault.value) else 2
      ensures publishEndpoint.published == old(publishEndpoint.published) + events[..published]
    {
      published := 0;
      if fault == Some(PublishRefunded) {
        return;
      }
      publishEndpoint.Publish(events[0]);
      published := 1;
      if fault == Some(PublishRollbackCompleted) {
        return;
      }
      publishEndpoint.Publish(events[1]);
      published := 2;
    }

    /** `GetAccountAsync`: the account's view, or nothing (the source returns null) when no row has that id. */
    method GetAccount(accountId: Guid) returns (r: Option<GetAccountResult>)
      ensures r.Some? <==> accountId in context.accounts
      ensures r.Some? ==> r.value == AccountView(context.accounts[accountId])
    {
      if accountId in context.accounts {
        r := Some(AccountView(context.accounts[accountId]));
      } else {
        r := None;
      }
    }

    /** `GetTransactionAsync`: the first row with that id, as a view, or nothing. */
    method GetTransaction(transactionId: Guid) returns (r: Option<GetTransactionResult>)
      ensures r.None? <==> forall j :: 0 <= j < |context.transactions| ==> context.transactions[j].id != transactionId
      ensures r.Some? ==>
                r.value.id == transactionId
                && r.value == TransactionView(context.transactions[FindTransaction(context.transactions, transactionId).value])
    {
      var found := FindTransaction(context.transactions, transactionId);
      if found.Some? {
        r := Some(TransactionView(context.transactions[found.value]));
      } else {
        r := None;
      }
    }

    /** `GetAccountTransactionsAsync` on the current table. */
    method GetAccountTransactions(query: GetAccountTransactionsQuery) returns (r: GetAccountTransactionsResult)
      ensures r == AccountTransactions(context.transactions, query)
      ensures r.totalCount == |RowsInvolving(context.transactions, query.accountId)|
    {
      r := AccountTransactions(context.transactions, query);
    }
  }
}
