/** The transfer and rollback commands and the results they produce. */
module Commands {
  import opened Wrappers
  import opened Models

  /**
   * A request to move `amount` from one account to another. The amount carries
   * no validation of its own: any sign is accepted by the type.
   */
  datatype TransferMoneyCommand = TransferMoneyCommand(
    fromAccountId: Guid,
    toAccountId: Guid,
    amount: Money,
    currency: string,
    description: Option<string>,
    correlationId: string)

  /** A command built with only the mandatory fields set. */
  function NewTransferMoneyCommand(fromAccountId: Guid, toAccountId: Guid, amount: Money): (c: TransferMoneyCommand)
    ensures c.currency == DefaultCurrency && c.description.None? && c.correlationId == []
    ensures c.fromAccountId == fromAccountId && c.toAccountId == toAccountId && c.amount == amount
  {
    TransferMoneyCommand(fromAccountId, toAccountId, amount, DefaultCurrency, None, "")
  }

  /**
   * The outcome of a transfer. `transactionId` is not nullable: a failed
   * transfer reports `Guid.Empty` there.
   */
  datatype TransferMoneyResult = TransferMoneyResult(
    success: bool,
    transactionId: Guid,
    errorMessage: Option<string>)

  datatype RollbackTransferCommand = RollbackTransferCommand(
    transactionId: Guid,
    reason: string,
    correlationId: string)

  /** A rollback command built with only the transaction id set. */
  function NewRollbackTransferCommand(transactionId: Guid): (c: RollbackTransferCommand)
    ensures c.transactionId == transactionId && c.reason == [] && c.correlationId == []
  {
    RollbackTransferCommand(transactionId, "", "")
  }

  /** The outcome of a rollback: a flag and an optional message, no transaction id. */
  datatype RollbackTransferResult = RollbackTransferResult(
    success: bool,
    errorMessage: Option<string>)
}
