/**
 * The account helpers: open an account, and set, debit or credit one
 * account's balance. Each write goes through `Rebalanced`, so it changes the
 * balance, `UpdatedAt` and the version token of the target row and nothing else.
 *
 * None of these methods catches anything: a save that throws leaves the
 * method by the exception, reported here as `Threw`, and nothing is stored.
 */
module AccountService {
  import opened Wrappers
  import opened Models
  import opened Ledger

  /** How a call without a catch ends: with its value, or by the exception of a failed save. */
  datatype Completion<T> = Returned(value: T) | Threw

  /** Some stored account already has this number (the unique index on `AccountNumber`). */
  predicate NumberTaken(accounts: map<Guid, Account>, accountNumber: string) {
    exists k :: k in accounts && accounts[k].accountNumber == accountNumber
  }

  /**
   * The row `CreateAccountAsync` builds: the initialisers of `new Account()`
   * with the given number, holder, balance and currency, a fresh id and a
   * fresh version token.
   */
  function OpenedAccount(accountNumber: string, accountHolderName: string, initialBalance: Money,
                         currency: string, id: Guid, version: Guid, now: Instant): (a: Account)
    ensures a.isActive && a.balance == initialBalance && a.currency == currency
    ensures a.accountNumber == accountNumber && a.accountHolderName == accountHolderName
    ensures a.id == id && a.version == Token(version) && a.createdAt == now && a.updatedAt == now
  {
    DefaultAccount(now).(id := id, accountNumber := accountNumber, accountHolderName := accountHolderName,
                         balance := initialBalance, currency := currency, version := Token(version))
  }

  /** Adding an account under a free key and a free number keeps the keys well formed. */
  lemma OpenKeepsWellFormed(s: LedgerState, a: Account)
    requires WellFormed(s) && a.id !in s.accounts && !NumberTaken(s.accounts, a.accountNumber)
    ensures WellFormed(s.(accounts := s.accounts[a.id := a]))
  {
  }

  class AccountService {
    const context: PaymentDbContext

    constructor (context: PaymentDbContext)
      ensures this.context == context
    {
      this.context := context;
    }

    /** `GetAccountAsync`: the row with that id, active or not. */
    method GetAccount(accountId: Guid) returns (r: Option<Account>)
      ensures r.Some? <==> accountId in context.accounts
      ensures r.Some? ==> r.value == context.accounts[accountId]
    {
      if accountId in context.accounts {
        r := Some(context.accounts[accountId]);
      } else {
        r := None;
      }
    }

    /**
     * `CreateAccountAsync`. `id` and `version` are the two GUIDs the call
     * generates, `now` its clock reading, and `saveFails` whether the save
     * throws for a reason of its own. The save also throws when the key or
     * the account number is taken.
     */
    method CreateAccount(accountNumber: string, accountHolderName: string, initialBalance: Money, currency: string,
                         id: Guid, version: Guid, now: Instant, saveFails: bool) returns (r: Completion<Account>)
      requires context.Valid()
      modifies context`accounts
      ensures context.Valid()
      ensures r.Returned? <==> !saveFails && id !in old(context.accounts) && !NumberTaken(old(context.accounts), accountNumber)
      ensures r.Returned? ==>
                r.value == OpenedAccount(accountNumber, accountHolderName, initialBalance, currency, id, version, now)
                && context.accounts == old(context.accounts)[id := r.value]
      ensures r.Threw? ==> context.accounts == old(context.accounts)
    {
      var account := OpenedAccount(accountNumber, accountHolderName, initialBalance, currency, id, version, now);
      if saveFails || id in context.accounts || NumberTaken(context.accounts, accountNumber) {
        return Threw;
      }
      OpenKeepsWellFormed(context.State(), account);
      context.accounts := context.accounts[id := account];
      r := Returned(account);
    }

    /**
     * `UpdateAccountBalanceAsync`: overwrites the balance with `newBalance`,
     * whatever its sign. A missing account is reported without a save.
     */
    method UpdateAccountBalance(accountId: Guid, newBalance: Money, version: Guid, now: Instant, saveFails: bool)
      returns (r: Completion<bool>)
      requires context.Valid()
      modifies context`accounts
      ensures context.Valid()
      ensures accountId !in old(context.accounts) ==> r == Returned(false) && context.accounts == old(context.accounts)
      ensures accountId in old(context.accounts) && saveFails ==> r == Threw && context.accounts == old(context.accounts)
      ensures accountId in old(context.accounts) && !saveFails ==>
                r == Returned(true)
                && context.accounts == old(context.accounts)[accountId :=
                     Rebalanced(old(context.accounts)[accountId], newBalance, version, now)]
    {
      if accountId !in context.accounts {
        return Returned(false);
      }
      if saveFails {
        return Threw;
      }
      RebalancedKeepsWellFormed(context.State(), accountId, newBalance, version, now);
      context.accounts := context.accounts[accountId := Rebalanced(context.accounts[accountId], newBalance, version, now)];
      r := Returned(true);
    }

    /**
     * `DebitAccountAsync`: refuses a missing account and a balance below
     * `amount`, without a save; otherwise takes `amount` off the balance.
     */
    method DebitAccount(accountId: Guid, amount: Money, version: Guid, now: Instant, saveFails: bool)
      returns (r: Completion<bool>)
      requires context.Valid()
      modifies context`accounts
      ensures context.Valid()
      ensures r == Returned(false) <==>
                accountId !in old(context.accounts) || old(context.accounts)[accountId].balance < amount
      ensures r != Returned(true) ==> context.accounts == old(context.accounts)
      ensures r.Threw? <==> saveFails && r != Returned(false)
      ensures r == Returned(true) ==>
                context.accounts == old(context.accounts)[accountId :=
                  Debited(old(context.accounts)[accountId], amount, version, now)]
                && context.accounts[accountId].balance >= 0
    {
      if accountId !in context.accounts || context.accounts[accountId].balance < amount {
        return Returned(false);
      }
      if saveFails {
        return Threw;
      }
      var account := context.accounts[accountId];
      RebalancedKeepsWellFormed(context.State(), accountId, account.balance - amount, version, now);
      context.accounts := context.accounts[accountId := Debited(account, amount, version, now)];
      r := Returned(true);
    }

    /** `CreditAccountAsync`: refuses only a missing account; otherwise adds `amount` to the balance. */
    method CreditAccount(accountId: Guid, amount: Money, version: Guid, now: Instant, saveFails: bool)
      returns (r: Completion<bool>)
      requires context.Valid()
      modifies context`accounts
      ensures context.Valid()
      ensures r == Returned(false) <==> accountId !in old(context.accounts)
      ensures r != Returned(true) ==> context.accounts == old(context.accounts)
      ensures r.Threw? <==> saveFails && r != Returned(false)
      ensures r == Returned(true) ==>
                context.accounts == old(context.accounts)[accountId :=
                  Credited(old(context.accounts)[accountId], amount, version, now)]
    {
      if accountId !in context.accounts {
        return Returned(false);
      }
      if saveFails {
        return Threw;
      }
      var account := context.accounts[accountId];
      RebalancedKeepsWellFormed(context.State(), accountId, account.balance + amount, version, now);
      context.accounts := context.accounts[accountId := Credited(account, amount, version, now)];
      r := Returned(true);
    }
  }
}
