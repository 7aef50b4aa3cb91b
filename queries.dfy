/**
 * Read-side records: the account and transaction views, the paged
 * transaction listing and its page count. Enums travel as their names.
 */
module Queries {
  import opened Wrappers
  import opened Models

  datatype GetAccountResult = GetAccountResult(
    id: Guid,
    accountNumber: string,
    accountHolderName: string,
    balance: Money,
    currency: string,
    isActive: bool,
    createdAt: Instant,
    updatedAt: Instant)

  datatype GetTransactionResult = GetTransactionResult(
    id: Guid,
    fromAccountId: Guid,
    toAccountId: Guid,
    amount: Money,
    currency: string,
    description: Option<string>,
    status: string,
    transactionType: string,
    createdAt: Instant,
    completedAt: Option<Instant>,
    failedAt: Option<Instant>,
    failureReason: Option<string>,
    correlationId: Option<string>)

  datatype GetAccountTransactionsQuery = GetAccountTransactionsQuery(
    accountId: Guid,
    page: int,
    pageSize: int)

  datatype GetAccountTransactionsResult = GetAccountTransactionsResult(
    transactions: seq<GetTransactionResult>,
    totalCount: int,
    page: int,
    pageSize: int)

  /** A listing query for one account at the declared defaults: first page, twenty rows. */
  function NewAccountTransactionsQuery(accountId: Guid): (q: GetAccountTransactionsQuery)
    ensures q.accountId == accountId && q.page == 1 && q.pageSize == 20
  {
    GetAccountTransactionsQuery(accountId, 1, 20)
  }

  // ------------------------------------------------------------ enum names

  /** `TransactionStatus.ToString()`. */
  function StatusName(s: TransactionStatus): string {
    match s
    case Pending => "Pending"
    case Processing => "Processing"
    case Completed => "Completed"
    case Failed => "Failed"
    case Cancelled => "Cancelled"
    case RolledBack => "RolledBack"
  }

  /** Reading a status back from its name; any other text names no status. */
  function ParseStatus(name: string): (r: Option<TransactionStatus>)
    ensures r.Some? ==> StatusName(r.value) == name
  {
    if name == "Pending" then Some(Pending)
    else if name == "Processing" then Some(Processing)
    else if name == "Completed" then Some(Completed)
    else if name == "Failed" then Some(Failed)
    else if name == "Cancelled" then Some(Cancelled)
    else if name == "RolledBack" then Some(RolledBack)
    else None
  }

  /** `TransactionType.ToString()`. */
  function TypeName(k: TransactionType): string {
    match k
    case Transfer => "Transfer"
    case Deposit => "Deposit"
    case Withdrawal => "Withdrawal"
    case Refund => "Refund"
  }

  function ParseType(name: string): (r: Option<TransactionType>)
    ensures r.Some? ==> TypeName(r.value) == name
  {
    if name == "Transfer" then Some(Transfer)
    else if name == "Deposit" then Some(Deposit)
    else if name == "Withdrawal" then Some(Withdrawal)
    else if name == "Refund" then Some(Refund)
    else None
  }

  /** Names identify enum members: name-then-parse is the identity, and distinct members have distinct names. */
  lemma EnumNamesRoundTrip(s: TransactionStatus, s': TransactionStatus, k: TransactionType, k': TransactionType)
    ensures ParseStatus(StatusName(s)) == Some(s)
    ensures ParseType(TypeName(k)) == Some(k)
    ensures StatusName(s) == StatusName(s') ==> s == s'
    ensures TypeName(k) == TypeName(k') ==> k == k'
  {
    assert ParseStatus(StatusName(s')) == Some(s') by { match s' case _ => {} }
    match s case _ => {}
    match k case _ => {}
    assert ParseType(TypeName(k')) == Some(k') by { match k' case _ => {} }
  }

  // ---------------------------------------------------------------- views

  function AccountView(a: Account): (r: GetAccountResult)
    ensures r.id == a.id && r.balance == a.balance && r.isActive == a.isActive
    ensures r.accountNumber == a.accountNumber && r.accountHolderName == a.accountHolderName
    ensures r.currency == a.currency && r.createdAt == a.createdAt && r.updatedAt == a.updatedAt
  {
    GetAccountResult(a.id, a.accountNumber, a.accountHolderName, a.balance, a.currency,
                     a.isActive, a.createdAt, a.updatedAt)
  }

  /** The row as returned to readers, with its enums turned into their names. */
  function TransactionView(t: Transaction): (r: GetTransactionResult)
    ensures ParseStatus(r.status) == Some(t.status) && ParseType(r.transactionType) == Some(t.transactionType)
    ensures r.id == t.id && r.fromAccountId == t.fromAccountId && r.toAccountId == t.toAccountId
    ensures r.amount == t.amount && r.currency == t.currency && r.description == t.description
    ensures r.createdAt == t.createdAt && r.completedAt == t.completedAt && r.failedAt == t.failedAt
    ensures r.failureReason == t.failureReason && r.correlationId == t.correlationId
  {
    EnumNamesRoundTrip(t.status, t.status, t.transactionType, t.transactionType);
    GetTransactionResult(t.id, t.fromAccountId, t.toAccountId, t.amount, t.currency, t.description,
                         StatusName(t.status), TypeName(t.transactionType), t.createdAt,
                         t.completedAt, t.failedAt, t.failureReason, t.correlationId)
  }

  // ------------------------------------------------------------ page count

  /**
   * `TotalPages`: the number of pages of `pageSize` rows needed to show
   * `totalCount` rows, i.e. the ceiling of their quotient.
   */
  function TotalPages(r: GetAccountTransactionsResult): (n: int)
    requires r.pageSize > 0 && r.totalCount >= 0
    ensures n >= 0
    ensures n * r.pageSize >= r.totalCount
    ensures r.totalCount > 0 ==> (n - 1) * r.pageSize < r.totalCount
    ensures r.totalCount == 0 ==> n == 0
  {
    var c, p := r.totalCount, r.pageSize;
    var q := (c + p - 1) / p;
    assert c + p - 1 == q * p + (c + p - 1) % p;
    assert q * p >= c;
    assert (q - 1) * p == q * p - p;
    q
  }
}
