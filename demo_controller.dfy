/**
 * The demonstration transfer endpoint: two request checks and a reply. It
 * moves no money and stores nothing; it is the only place where a
 * non-positive amount or a transfer to the same account is refused.
 */
module DemoController {
  import opened Wrappers
  import opened Models

  datatype DemoTransferRequest = DemoTransferRequest(
    fromAccountId: Guid,
    toAccountId: Guid,
    amount: Money,
    currency: string,
    description: Option<string>)

  /** The reply body; the human-readable `Message` text is not modelled. */
  datatype DemoTransferResult = DemoTransferResult(
    success: bool,
    transactionId: Option<Guid>,
    errorMessage: Option<string>)

  /** The two HTTP outcomes the endpoint produces: 200 and 400, each with a body. */
  datatype Reply = Ok(body: DemoTransferResult) | BadRequest(body: DemoTransferResult)

  const AmountNotPositive: string := "Amount must be greater than 0"
  const SameAccount: string := "Cannot transfer to the same account"

  /**
   * `TransferMoney`. The amount check comes first, so a request that fails
   * both reports the amount; `newId` is the GUID a passing request is given.
   */
  function TransferMoney(request: DemoTransferRequest, newId: Guid): (r: Reply)
    ensures r.Ok? <==> request.amount > 0 && request.fromAccountId != request.toAccountId
    ensures r.body.success <==> r.Ok?
    ensures r.Ok? ==> r.body.transactionId == Some(newId) && r.body.errorMessage.None?
    ensures request.amount <= 0 ==> r.body.errorMessage == Some(AmountNotPositive)
    ensures request.amount > 0 && request.fromAccountId == request.toAccountId ==>
              r.body.errorMessage == Some(SameAccount)
    ensures r.BadRequest? ==> r.body.transactionId.None?
  {
    if request.amount <= 0 then BadRequest(DemoTransferResult(false, None, Some(AmountNotPositive)))
    else if request.fromAccountId == request.toAccountId then BadRequest(DemoTransferResult(false, None, Some(SameAccount)))
    else Ok(DemoTransferResult(true, Some(newId), None))
  }
}
