/**
 * What a rollback does, stated about `RollbackEffect`, and how it undoes a
 * transfer: which rows it refuses, how it moves the money back, what it
 * records and publishes, and a transfer followed by its rollback.
 */
module RollbackProperties {
  import opened Wrappers
  import opened Models
  import opened Ledger
  import opened Commands
  import opened Events
  import opened PaymentService

  /**
   * A rollback is refused, in this order, for an unknown id, for a row that
   * is not `Completed`, and for a row whose accounts are gone; a refusal
   * changes nothing and publishes nothing.
   */
  lemma RollbackRejections(s: LedgerState, c: RollbackTransferCommand, fromVersion: Guid, toVersion: Guid,
                           now: Instant, fault: Option<RollbackStep>)
    requires fault != Some(ReadTransaction)
    ensures var r := RollbackEffect(s, c, fromVersion, toVersion, now, fault);
            var found := FindTransaction(s.transactions, c.transactionId);
            (found.None? ==> r == RollbackFailure(s, TransactionNotFound, []))
            && (found.Some? && s.transactions[found.value].status != Completed ==>
                  r == RollbackFailure(s, NotRollbackable, []))
            && (found.Some? && s.transactions[found.value].status == Completed && fault != Some(ReadRollbackAccounts)
                && (s.transactions[found.value].fromAccountId !in s.accounts
                    || s.transactions[found.value].toAccountId !in s.accounts) ==>
                  r == RollbackFailure(s, AccountsNotFound, []))
  {
  }

  /**
   * A successful rollback gives the amount back to the payer and takes it
   * from the payee, whatever the payee's balance, and rewrites the row as
   * `RolledBack` with the call's clock and the command's reason.
   */
  lemma RollbackReverses(s: LedgerState, c: RollbackTransferCommand, fromVersion: Guid, toVersion: Guid,
                         now: Instant, fault: Option<RollbackStep>)
    requires RollbackEffect(s, c, fromVersion, toVersion, now, fault).result.success
    ensures var r := RollbackEffect(s, c, fromVersion, toVersion, now, fault);
            var i := FindTransaction(s.transactions, c.transactionId).value;
            var t := s.transactions[i];
            var from, to := t.fromAccountId, t.toAccountId;
            r.state.accounts.Keys == s.accounts.Keys
            && (from != to ==>
                  r.state.accounts[from] == Credited(s.accounts[from], t.amount, fromVersion, now)
                  && r.state.accounts[to] == Debited(s.accounts[to], t.amount, toVersion, now))
            && (from == to ==>
                  r.state.accounts[from] == Rebalanced(s.accounts[from], s.accounts[from].balance, toVersion, now))
            && (forall k :: k in s.accounts && k != from && k != to ==> r.state.accounts[k] == s.accounts[k])
            && |r.state.transactions| == |s.transactions|
            && r.state.transactions[i] == RolledBackRecord(t, c.reason, now)
            && r.state.transactions[i].status == RolledBack && r.state.transactions[i].failedAt == Some(now)
            && r.state.transactions[i].failureReason == Some(c.reason)
            && forall j :: 0 <= j < |s.transactions| && j != i ==> r.state.transactions[j] == s.transactions[j]
  {
    RollbackEffectPastGuards(s, c, fromVersion, toVersion, now, fault);
  }

  /**
   * A successful rollback publishes `MoneyRefunded` with the payer's new
   * balance and then `TransferRollbackCompleted`, both under the command's
   * correlation id and the row's amount and currency.
   */
  lemma RollbackEventSequence(s: LedgerState, c: RollbackTransferCommand, fromVersion: Guid, toVersion: Guid,
                              now: Instant, fault: Option<RollbackStep>)
    requires WellFormed(s) && RollbackEffect(s, c, fromVersion, toVersion, now, fault).result.success
    ensures var r := RollbackEffect(s, c, fromVersion, toVersion, now, fault);
            var t := s.transactions[FindTransaction(s.transactions, c.transactionId).value];
            |r.events| == 2
            && r.events[0] == Stamped(c.correlationId, MoneyRefunded(BalanceChange(
                                t.id, t.fromAccountId, t.amount, r.state.accounts[t.fromAccountId].balance, t.currency)))
            && r.events[1] == Stamped(c.correlationId, TransferRollbackCompleted(TransferFacts(
                                t.id, t.fromAccountId, t.toAccountId, t.amount, t.currency)))
  {
    RollbackEffectPastGuards(s, c, fromVersion, toVersion, now, fault);
  }

  /**
   * Past the guards, every exception ends in the internal-error result with
   * the committed state untouched, and what was published before it stays
   * published; a throwing commit leaves both events out.
   */
  lemma FailedRollbackKeepsState(s: LedgerState, c: RollbackTransferCommand, fromVersion: Guid, toVersion: Guid,
                                 now: Instant, step: RollbackStep)
    requires Rollbackable(s, c.transactionId) && step != ReadTransaction && step != ReadRollbackAccounts
    ensures var r := RollbackEffect(s, c, fromVersion, toVersion, now, Some(step));
            var t := s.transactions[FindTransaction(s.transactions, c.transactionId).value];
            var events := RollbackEvents(c, t, ReversedBalances(s.accounts, t, fromVersion, toVersion, now));
            r == RollbackFailure(s, RollbackInternalError, events[..RollbackEventsBefore(step)])
  {
    RollbackEffectPastGuards(s, c, fromVersion, toVersion, now, Some(step));
  }

  /** No rollback, successful or not, creates or destroys money. */
  lemma RollbackConservesTotal(s: LedgerState, c: RollbackTransferCommand, fromVersion: Guid, toVersion: Guid,
                               now: Instant, fault: Option<RollbackStep>)
    ensures TotalBalance(RollbackEffect(s, c, fromVersion, toVersion, now, fault).state.accounts)
            == TotalBalance(s.accounts)
  {
    var r := RollbackEffect(s, c, fromVersion, toVersion, now, fault);
    if r.result.success {
      RollbackEffectPastGuards(s, c, fromVersion, toVersion, now, fault);
      var t := s.transactions[FindTransaction(s.transactions, c.transactionId).value];
      var from, to := t.fromAccountId, t.toAccountId;
      var m1 := s.accounts[from := Credited(s.accounts[from], t.amount, fromVersion, now)];
      TotalAfterWrite(s.accounts, from, Credited(s.accounts[from], t.amount, fromVersion, now));
      TotalAfterWrite(m1, to, Debited(m1[to], t.amount, toVersion, now));
    }
  }

  /** Reversing a transfer's writes puts every balance back, one account or two. */
  lemma ReversalUndoesTransfer(accounts: map<Guid, Account>, c: TransferMoneyCommand, t: Transaction,
                               fromVersion: Guid, toVersion: Guid, now: Instant,
                               fromVersion': Guid, toVersion': Guid, later: Instant)
    requires c.fromAccountId in accounts && c.toAccountId in accounts
    requires t.fromAccountId == c.fromAccountId && t.toAccountId == c.toAccountId && t.amount == c.amount
    ensures var back := ReversedBalances(TransferBalances(accounts, c, fromVersion, toVersion, now),
                                         t, fromVersion', toVersion', later);
            back.Keys == accounts.Keys && forall k :: k in accounts ==> back[k].balance == accounts[k].balance
  {
  }

  /**
   * Rolling back the transfer that just succeeded succeeds and puts every
   * balance back where it was before the transfer; the transfer's row ends
   * `RolledBack`.
   */
  lemma TransferThenRollbackRestoresBalances(s: LedgerState, c: TransferMoneyCommand, txId: Guid,
                                             fromVersion: Guid, toVersion: Guid, now: Instant,
                                             rc: RollbackTransferCommand, fromVersion': Guid, toVersion': Guid,
                                             later: Instant)
    requires TransferEffect(s, c, txId, fromVersion, toVersion, now, None).result.success
    requires rc.transactionId == txId
    ensures var s1 := TransferEffect(s, c, txId, fromVersion, toVersion, now, None).state;
            var r := RollbackEffect(s1, rc, fromVersion', toVersion', later, None);
            r.result.success
            && r.state.accounts.Keys == s.accounts.Keys
            && (forall k :: k in s.accounts ==> r.state.accounts[k].balance == s.accounts[k].balance)
            && |r.state.transactions| == |s.transactions| + 1
            && r.state.transactions[..|s.transactions|] == s.transactions
            && r.state.transactions[|s.transactions|].id == txId
            && r.state.transactions[|s.transactions|].status == RolledBack
  {
    TransferEffectPastGuards(s, c, txId, fromVersion, toVersion, now, None);
    var s1 := TransferEffect(s, c, txId, fromVersion, toVersion, now, None).state;
    var row := CompletedRecord(TransferRecord(c, txId, now), now);
    assert s1 == LedgerState(TransferBalances(s.accounts, c, fromVersion, toVersion, now), s.transactions + [row]);
    FindAppended(s.transactions, row);
    RollbackEffectPastGuards(s1, rc, fromVersion', toVersion', later, None);
    ReversalUndoesTransfer(s.accounts, c, row, fromVersion, toVersion, now, fromVersion', toVersion', later);
    var r := RollbackEffect(s1, rc, fromVersion', toVersion', later, None);
    assert r.state.transactions[|s.transactions|].id == txId;
  }

  /** A rolled-back transfer cannot be rolled back again: its row is no longer `Completed`. */
  lemma SecondRollbackRejected(s: LedgerState, c: RollbackTransferCommand, fromVersion: Guid, toVersion: Guid,
                               now: Instant, c': RollbackTransferCommand, fromVersion': Guid, toVersion': Guid,
                               later: Instant, fault: Option<RollbackStep>)
    requires RollbackEffect(s, c, fromVersion, toVersion, now, None).result.success
    requires c'.transactionId == c.transactionId && fault != Some(ReadTransaction)
    ensures var s1 := RollbackEffect(s, c, fromVersion, toVersion, now, None).state;
            RollbackEffect(s1, c', fromVersion', toVersion', later, fault) == RollbackFailure(s1, NotRollbackable, [])
  {
    RollbackEffectPastGuards(s, c, fromVersion, toVersion, now, None);
    var i := FindTransaction(s.transactions, c.transactionId).value;
    var t := s.transactions[i];
    FindAfterRowUpdate(s.transactions, i, RolledBackRecord(t, c.reason, now), c.transactionId);
  }
}
