/**
 * Concrete runs of the ledger: the two-account walkthrough (a transfer and
 * its rollback), a rollback that drives the payee's balance below zero, and
 * a transfer of a negative amount.
 */
module Scenarios {
  import opened Wrappers
  import opened Models
  import opened Ledger
  import opened Commands
  import opened PaymentService

  /** An active account opened at time 0 with the given balance. */
  function Opened(id: Guid, accountNumber: string, balance: Money): (a: Account)
    ensures a.id == id && a.balance == balance && a.isActive
  {
    Account(id, accountNumber, "Holder", balance, DefaultCurrency, true, 0, 0, Token(id))
  }

  /** Two accounts holding 5,000.00 and 3,000.00 (in cents), and no transactions. */
  function TwoAccounts(): LedgerState {
    LedgerState(map[1 := Opened(1, "ACC-1", 500000), 2 := Opened(2, "ACC-2", 300000)], [])
  }

  /**
   * Moving 1,000.00 from the first account to the second leaves 4,000.00 on
   * each; rolling that transfer back restores 5,000.00 and 3,000.00.
   */
  lemma TransferAndRollBack()
    ensures var c := NewTransferMoneyCommand(1, 2, 100000);
            var r1 := TransferEffect(TwoAccounts(), c, 10, 20, 21, 100, None);
            r1.result == TransferMoneyResult(true, 10, None)
            && r1.state.accounts[1].balance == 400000 && r1.state.accounts[2].balance == 400000
            && var r2 := RollbackEffect(r1.state, NewRollbackTransferCommand(10), 22, 23, 200, None);
            r2.result == RollbackTransferResult(true, None)
            && r2.state.accounts[1].balance == 500000 && r2.state.accounts[2].balance == 300000
  {
    var s := TwoAccounts();
    var c := NewTransferMoneyCommand(1, 2, 100000);
    assert PassesTransferGuards(s, c);
    TransferEffectPastGuards(s, c, 10, 20, 21, 100, None);
    var r1 := TransferEffect(s, c, 10, 20, 21, 100, None);
    assert r1.state.accounts == TransferBalances(s.accounts, c, 20, 21, 100);
    var row := CompletedRecord(TransferRecord(c, 10, 100), 100);
    assert r1.state.transactions == [row];
    assert FindTransaction(r1.state.transactions, 10) == Some(0);
    var rc := NewRollbackTransferCommand(10);
    assert Rollbackable(r1.state, 10);
    RollbackEffectPastGuards(r1.state, rc, 22, 23, 200, None);
  }

  /**
   * The payee has spent the money and been deactivated; the rollback still
   * succeeds, since it checks neither, and leaves the payee overdrawn.
   */
  lemma RollbackOverdrawsPayee()
    ensures var payee := Opened(2, "ACC-2", 0).(isActive := false);
            var row := Transaction(10, 1, 2, 100000, DefaultCurrency, None, Completed, Transfer,
                                   100, Some(100), None, None, None);
            var s := LedgerState(map[1 := Opened(1, "ACC-1", 400000), 2 := payee], [row]);
            var r := RollbackEffect(s, NewRollbackTransferCommand(10), 22, 23, 200, None);
            r.result.success && r.state.accounts[2].balance == -100000
  {
    var payee := Opened(2, "ACC-2", 0).(isActive := false);
    var row := Transaction(10, 1, 2, 100000, DefaultCurrency, None, Completed, Transfer,
                           100, Some(100), None, None, None);
    var s := LedgerState(map[1 := Opened(1, "ACC-1", 400000), 2 := payee], [row]);
    var rc := NewRollbackTransferCommand(10);
    assert FindTransaction(s.transactions, 10) == Some(0);
    assert Rollbackable(s, 10);
    RollbackEffectPastGuards(s, rc, 22, 23, 200, None);
  }

  /**
   * The transfer itself checks no sign: a negative amount passes the balance
   * check of an empty account, credits the payer and overdraws the payee.
   */
  lemma NegativeAmountOverdrawsPayee()
    ensures var s := LedgerState(map[1 := Opened(1, "ACC-1", 0), 2 := Opened(2, "ACC-2", 0)], []);
            var r := TransferEffect(s, NewTransferMoneyCommand(1, 2, -100000), 10, 20, 21, 100, None);
            r.result.success && r.state.accounts[1].balance == 100000 && r.state.accounts[2].balance == -100000
  {
    var s := LedgerState(map[1 := Opened(1, "ACC-1", 0), 2 := Opened(2, "ACC-2", 0)], []);
    var c := NewTransferMoneyCommand(1, 2, -100000);
    assert PassesTransferGuards(s, c);
    TransferEffectPastGuards(s, c, 10, 20, 21, 100, None);
    assert TransferEffect(s, c, 10, 20, 21, 100, None).state.accounts == TransferBalances(s.accounts, c, 20, 21, 100);
  }
}
