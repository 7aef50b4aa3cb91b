/**
 * What a transfer does, stated about `TransferEffect`: which guard answers
 * first, how the balances move, what row is recorded, which events go out,
 * and what a failure leaves behind.
 */
module TransferProperties {
  import opened Wrappers
  import opened Models
  import opened Ledger
  import opened Commands
  import opened Events
  import opened PaymentService

  /**
   * The guards answer in a fixed order, each with its own message, and a
   * refused transfer changes nothing and publishes nothing.
   */
  lemma GuardOrder(s: LedgerState, c: TransferMoneyCommand, txId: Guid, fromVersion: Guid, toVersion: Guid,
                   now: Instant, fault: Option<TransferStep>)
    requires fault != Some(ReadAccounts)
    ensures var r := TransferEffect(s, c, txId, fromVersion, toVersion, now, fault);
            (!IsActiveAccount(s.accounts, c.fromAccountId) ==>
               r == TransferFailure(s, FromAccountMissing, []))
            && (IsActiveAccount(s.accounts, c.fromAccountId) && !IsActiveAccount(s.accounts, c.toAccountId) ==>
               r == TransferFailure(s, ToAccountMissing, []))
            && (IsActiveAccount(s.accounts, c.fromAccountId) && IsActiveAccount(s.accounts, c.toAccountId)
                && s.accounts[c.fromAccountId].balance < c.amount ==>
               r == TransferFailure(s, InsufficientBalance, []))
  {
  }

  /** A balance exactly equal to the amount is enough: only a smaller one is refused. */
  lemma ExactBalanceAccepted(s: LedgerState, c: TransferMoneyCommand, txId: Guid, fromVersion: Guid, toVersion: Guid,
                             now: Instant)
    requires IsActiveAccount(s.accounts, c.fromAccountId) && IsActiveAccount(s.accounts, c.toAccountId)
    requires s.accounts[c.fromAccountId].balance == c.amount && c.fromAccountId != c.toAccountId
    requires FindTransaction(s.transactions, txId).None?
    ensures var r := TransferEffect(s, c, txId, fromVersion, toVersion, now, None);
            r.result.success && r.state.accounts[c.fromAccountId].balance == 0
  {
    TransferEffectPastGuards(s, c, txId, fromVersion, toVersion, now, None);
  }

  /**
   * A successful transfer between two accounts takes `amount` from one and
   * gives it to the other, gives both a new version token, and leaves every
   * other account as it was.
   */
  lemma DistinctAccountsMoveMoney(s: LedgerState, c: TransferMoneyCommand, txId: Guid, fromVersion: Guid,
                                  toVersion: Guid, now: Instant, fault: Option<TransferStep>)
    requires c.fromAccountId != c.toAccountId
    requires TransferEffect(s, c, txId, fromVersion, toVersion, now, fault).result.success
    ensures var r := TransferEffect(s, c, txId, fromVersion, toVersion, now, fault);
            var from, to := c.fromAccountId, c.toAccountId;
            r.state.accounts.Keys == s.accounts.Keys
            && r.state.accounts[from] == Debited(s.accounts[from], c.amount, fromVersion, now)
            && r.state.accounts[to] == Credited(s.accounts[to], c.amount, toVersion, now)
            && r.state.accounts[from].balance + r.state.accounts[to].balance
               == s.accounts[from].balance + s.accounts[to].balance
            && forall k :: k in s.accounts && k != from && k != to ==> r.state.accounts[k] == s.accounts[k]
  {
    TransferEffectPastGuards(s, c, txId, fromVersion, toVersion, now, fault);
  }

  /**
   * With both ids naming one account the debit and the credit land on the
   * same row: its balance ends where it started, but it is written, and it
   * keeps the version token of the second write.
   */
  lemma SameAccountKeepsBalance(s: LedgerState, c: TransferMoneyCommand, txId: Guid, fromVersion: Guid,
                                toVersion: Guid, now: Instant, fault: Option<TransferStep>)
    requires c.fromAccountId == c.toAccountId
    requires TransferEffect(s, c, txId, fromVersion, toVersion, now, fault).result.success
    ensures var r := TransferEffect(s, c, txId, fromVersion, toVersion, now, fault);
            var id := c.fromAccountId;
            r.state.accounts == s.accounts[id := Rebalanced(s.accounts[id], s.accounts[id].balance, toVersion, now)]
  {
    TransferEffectPastGuards(s, c, txId, fromVersion, toVersion, now, fault);
  }

  /** No transfer, successful or not, creates or destroys money. */
  lemma TransferConservesTotal(s: LedgerState, c: TransferMoneyCommand, txId: Guid, fromVersion: Guid,
                               toVersion: Guid, now: Instant, fault: Option<TransferStep>)
    ensures TotalBalance(TransferEffect(s, c, txId, fromVersion, toVersion, now, fault).state.accounts)
            == TotalBalance(s.accounts)
  {
    var r := TransferEffect(s, c, txId, fromVersion, toVersion, now, fault);
    if r.result.success {
      TransferEffectPastGuards(s, c, txId, fromVersion, toVersion, now, fault);
      var from, to := c.fromAccountId, c.toAccountId;
      var m1 := s.accounts[from := Debited(s.accounts[from], c.amount, fromVersion, now)];
      TotalAfterWrite(s.accounts, from, Debited(s.accounts[from], c.amount, fromVersion, now));
      TotalAfterWrite(m1, to, Credited(m1[to], c.amount, toVersion, now));
    }
  }

  /**
   * A successful transfer stores exactly one new row, at the end of the
   * table: the command's parties, amount, currency, description and
   * correlation id, as a `Completed` transfer stamped with the call's clock.
   */
  lemma TransferRecordsOneRow(s: LedgerState, c: TransferMoneyCommand, txId: Guid, fromVersion: Guid,
                              toVersion: Guid, now: Instant, fault: Option<TransferStep>)
    requires TransferEffect(s, c, txId, fromVersion, toVersion, now, fault).result.success
    ensures var r := TransferEffect(s, c, txId, fromVersion, toVersion, now, fault);
            var rows := r.state.transactions;
            |rows| == |s.transactions| + 1 && rows[..|s.transactions|] == s.transactions
            && var t := rows[|s.transactions|];
            t.id == txId && t.fromAccountId == c.fromAccountId && t.toAccountId == c.toAccountId
            && t.amount == c.amount && t.currency == c.currency && t.description == c.description
            && t.correlationId == Some(c.correlationId)
            && t.status == Completed && t.transactionType == Transfer
            && t.createdAt == now && t.completedAt == Some(now) && t.failedAt.None? && t.failureReason.None?
            && FindTransaction(rows, txId) == Some(|s.transactions|)
  {
    TransferEffectPastGuards(s, c, txId, fromVersion, toVersion, now, fault);
    var row := CompletedRecord(TransferRecord(c, txId, now), now);
    assert (s.transactions + [row])[..|s.transactions|] == s.transactions;
    FindAppended(s.transactions, row);
  }

  /**
   * A successful transfer publishes `MoneyDebited`, `MoneyCredited` and
   * `TransferCompleted`, in that order, each with the balance the account
   * ended with; between two accounts the debit event carries the balance
   * after the debit and the credit event the balance after the credit.
   */
  lemma TransferEventSequence(s: LedgerState, c: TransferMoneyCommand, txId: Guid, fromVersion: Guid,
                              toVersion: Guid, now: Instant, fault: Option<TransferStep>)
    requires WellFormed(s) && TransferEffect(s, c, txId, fromVersion, toVersion, now, fault).result.success
    ensures var r := TransferEffect(s, c, txId, fromVersion, toVersion, now, fault);
            var from, to := c.fromAccountId, c.toAccountId;
            |r.events| == 3
            && r.events[0].body == MoneyDebited(BalanceChange(txId, from, c.amount,
                                                  r.state.accounts[from].balance, c.currency))
            && r.events[1].body == MoneyCredited(BalanceChange(txId, to, c.amount,
                                                   r.state.accounts[to].balance, c.currency))
            && r.events[2].body == TransferCompleted(TransferFacts(txId, from, to, c.amount, c.currency))
            && (from != to ==>
                  r.events[0].body.debit.newBalance == s.accounts[from].balance - c.amount
                  && r.events[1].body.credit.newBalance == s.accounts[to].balance + c.amount)
  {
    TransferEffectPastGuards(s, c, txId, fromVersion, toVersion, now, fault);
  }

  /**
   * Past the guards, every exception ends in the internal-error result with
   * the committed state untouched; the events published before the throw
   * stay published. A taken id fails at the first save, before any event.
   */
  lemma FailedTransferKeepsState(s: LedgerState, c: TransferMoneyCommand, txId: Guid, fromVersion: Guid,
                                 toVersion: Guid, now: Instant, step: TransferStep)
    requires PassesTransferGuards(s, c) && step != ReadAccounts
    ensures var r := TransferEffect(s, c, txId, fromVersion, toVersion, now, Some(step));
            var events := TransferEvents(c, txId, TransferBalances(s.accounts, c, fromVersion, toVersion, now));
            r.state == s && r.result == TransferMoneyResult(false, EmptyGuid, Some(TransferInternalError))
            && r.events == if FindTransaction(s.transactions, txId).Some? then [] else events[..TransferEventsBefore(step)]
    ensures FindTransaction(s.transactions, txId).Some? ==>
              TransferEffect(s, c, txId, fromVersion, toVersion, now, None)
              == TransferFailure(s, TransferInternalError, [])
  {
    TransferEffectPastGuards(s, c, txId, fromVersion, toVersion, now, Some(step));
    TransferEffectPastGuards(s, c, txId, fromVersion, toVersion, now, None);
  }

  /** The account reads throwing is reported as an internal error before any guard is looked at. */
  lemma ReadFaultFailsFirst(s: LedgerState, c: TransferMoneyCommand, txId: Guid, fromVersion: Guid,
                            toVersion: Guid, now: Instant)
    ensures TransferEffect(s, c, txId, fromVersion, toVersion, now, Some(ReadAccounts))
            == TransferFailure(s, TransferInternalError, [])
  {
  }

  /**
   * Events go out before the commit: when the commit throws, all three
   * events, `TransferCompleted` among them, have been published for a
   * transfer that the store does not hold.
   */
  lemma CommitFaultLeaksEvents(s: LedgerState, c: TransferMoneyCommand, txId: Guid, fromVersion: Guid,
                               toVersion: Guid, now: Instant)
    requires PassesTransferGuards(s, c) && FindTransaction(s.transactions, txId).None?
    ensures var r := TransferEffect(s, c, txId, fromVersion, toVersion, now, Some(CommitTransfer));
            !r.result.success && r.state == s && |r.events| == 3 && r.events[2].body.TransferCompleted?
            && FindTransaction(r.state.transactions, txId).None?
  {
    FailedTransferKeepsState(s, c, txId, fromVersion, toVersion, now, CommitTransfer);
  }
}
