/**
 * The domain events the ledger publishes, and the publish endpoint, which the
 * model reduces to the sequence of everything published so far.
 */
module Events {
  import opened Wrappers
  import opened Models

  /** Shape shared by `MoneyDebited`, `MoneyCredited` and `MoneyRefunded`. */
  datatype BalanceChange = BalanceChange(
    transactionId: Guid,
    accountId: Guid,
    amount: Money,
    newBalance: Money,
    currency: string)

  /** Shape shared by `TransferCompleted`, `TransferRollbackCompleted` and the two events that extend it. */
  datatype TransferFacts = TransferFacts(
    transactionId: Guid,
    fromAccountId: Guid,
    toAccountId: Guid,
    amount: Money,
    currency: string)

  datatype EventBody =
    | TransferCommandReceived(received: TransferFacts, description: Option<string>)
    | MoneyDebited(debit: BalanceChange)
    | MoneyCredited(credit: BalanceChange)
    | TransferCompleted(completed: TransferFacts)
    | TransferFailed(failed: TransferFacts, failureReason: string)
    | TransferRollbackRequested(requested: TransferFacts, rollbackReason: string)
    | MoneyRefunded(refund: BalanceChange)
    | TransferRollbackCompleted(rolledBack: TransferFacts)

  /**
   * The fields every event inherits. The event id and timestamp are fresh
   * values nothing in the ledger reads, so they are not modelled.
   */
  datatype Envelope = Envelope(
    correlationId: string,
    causationId: string,
    schemaVersion: string,
    body: EventBody)

  const SchemaVersion: string := "1.0"

  /** An event as the ledger builds it: only the correlation id and the payload are set. */
  function Stamped(correlationId: string, body: EventBody): (e: Envelope)
    ensures e.correlationId == correlationId && e.body == body
    ensures e.causationId == [] && e.schemaVersion == SchemaVersion
  {
    Envelope(correlationId, "", SchemaVersion, body)
  }

  /** The message bus as seen from the ledger: everything published, in order. */
  class PublishEndpoint {
    var published: seq<Envelope>

    constructor ()
      ensures published == []
    {
      published := [];
    }

    method Publish(e: Envelope)
      modifies this
      ensures published == old(published) + [e]
    {
      published := published + [e];
    }
  }
}
