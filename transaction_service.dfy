/**
 * The transaction helpers: record a new transfer row, look one up, and set a
 * row's status. Like the account helpers they catch nothing: a save that
 * throws ends the call as `Threw` with nothing stored.
 */
module TransactionService {
  import opened Wrappers
  import opened Models
  import opened Ledger
  import opened AccountService

  /**
   * The row `CreateTransactionAsync` builds: the initialisers of
   * `new Transaction()`, which make it a `Pending` transfer, with the given
   * parties, amount, currency and description and a fresh id.
   */
  function NewTransaction(fromAccountId: Guid, toAccountId: Guid, amount: Money, currency: string,
                          description: Option<string>, id: Guid, now: Instant): (t: Transaction)
    ensures t.status == Pending && t.transactionType == Transfer && t.createdAt == now && t.id == id
    ensures t.fromAccountId == fromAccountId && t.toAccountId == toAccountId && t.amount == amount
    ensures t.currency == currency && t.description == description
    ensures t.completedAt.None? && t.failedAt.None? && t.failureReason.None? && t.correlationId.None?
  {
    DefaultTransaction(now).(id := id, fromAccountId := fromAccountId, toAccountId := toAccountId,
                             amount := amount, currency := currency, description := description)
  }

  /**
   * The row after `UpdateTransactionStatusAsync` found it: the status is
   * overwritten whatever it was; `Completed` also stamps `CompletedAt`, and
   * `Failed` stamps `FailedAt` and replaces the reason, even by none.
   */
  function WithStatus(t: Transaction, status: TransactionStatus, failureReason: Option<string>, now: Instant)
    : (r: Transaction)
    ensures r.status == status
    ensures r.(status := t.status, completedAt := t.completedAt, failedAt := t.failedAt,
               failureReason := t.failureReason) == t
    ensures r.completedAt == (if status == Completed then Some(now) else t.completedAt)
    ensures r.failedAt == (if status == Failed then Some(now) else t.failedAt)
    ensures r.failureReason == (if status == Failed then failureReason else t.failureReason)
  {
    var r := t.(status := status);
    if status == Completed then r.(completedAt := Some(now))
    else if status == Failed then r.(failedAt := Some(now), failureReason := failureReason)
    else r
  }

  class TransactionService {
    const context: PaymentDbContext

    constructor (context: PaymentDbContext)
      ensures this.context == context
    {
      this.context := context;
    }

    /**
     * `CreateTransactionAsync`. `id` is the GUID the call generates, `now`
     * its clock reading, `saveFails` whether the save throws for a reason of
     * its own; it also throws when the id is taken.
     */
    method CreateTransaction(fromAccountId: Guid, toAccountId: Guid, amount: Money, currency: string,
                             description: Option<string>, id: Guid, now: Instant, saveFails: bool)
      returns (r: Completion<Transaction>)
      requires context.Valid()
      modifies context`transactions
      ensures context.Valid()
      ensures r.Returned? <==> !saveFails && FindTransaction(old(context.transactions), id).None?
      ensures r.Returned? ==>
                r.value == NewTransaction(fromAccountId, toAccountId, amount, currency, description, id, now)
                && context.transactions == old(context.transactions) + [r.value]
      ensures r.Threw? ==> context.transactions == old(context.transactions)
    {
      var t := NewTransaction(fromAccountId, toAccountId, amount, currency, description, id, now);
      if saveFails || FindTransaction(context.transactions, id).Some? {
        return Threw;
      }
      AppendKeepsUniqueIds(context.transactions, t);
      WithRowsWellFormed(context.State(), context.transactions + [t]);
      context.transactions := context.transactions + [t];
      r := Returned(t);
    }

    /** `GetTransactionAsync`: the first row with that id, if any. */
    method GetTransaction(transactionId: Guid) returns (r: Option<Transaction>)
      ensures r.None? <==> forall j :: 0 <= j < |context.transactions| ==> context.transactions[j].id != transactionId
      ensures r.Some? ==> r.value.id == transactionId
                          && exists i :: 0 <= i < |context.transactions| && r.value == context.transactions[i]
                                         && forall j :: 0 <= j < i ==> context.transactions[j].id != transactionId
    {
      var found := FindTransaction(context.transactions, transactionId);
      if found.Some? {
        r := Some(context.transactions[found.value]);
      } else {
        r := None;
      }
    }

    /**
     * `UpdateTransactionStatusAsync`: an unknown id is ignored, without a
     * save; otherwise the first row with that id is rewritten by `WithStatus`.
     * Returns whether a row was found.
     */
    method UpdateTransactionStatus(transactionId: Guid, status: TransactionStatus, failureReason: Option<string>,
                                   now: Instant, saveFails: bool) returns (r: Completion<bool>)
      requires context.Valid()
      modifies context`transactions
      ensures context.Valid()
      ensures r == Returned(false) <==> FindTransaction(old(context.transactions), transactionId).None?
      ensures r.Threw? <==> saveFails && r != Returned(false)
      ensures r != Returned(true) ==> context.transactions == old(context.transactions)
      ensures r == Returned(true) ==>
                var i := FindTransaction(old(context.transactions), transactionId).value;
                context.transactions
                == old(context.transactions)[i := WithStatus(old(context.transactions)[i], status, failureReason, now)]
    {
      var found := FindTransaction(context.transactions, transactionId);
      if found.None? {
        return Returned(false);
      }
      if saveFails {
        return Threw;
      }
      var i := found.value;
      var updated := WithStatus(context.transactions[i], status, failureReason, now);
      RowUpdateKeepsUniqueIds(context.transactions, i, updated);
      WithRowsWellFormed(context.State(), context.transactions[i := updated]);
      context.transactions := context.transactions[i := updated];
      r := Returned(true);
    }
  }
}
