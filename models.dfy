/**
 * The record types the ledger reads and writes: `Account` and `Transaction`,
 * with the two transaction enums, the record defaults and the column limits.
 */
module Models {
  import opened Wrappers

  /** A GUID, identified by its 128-bit value; 0 stands for `Guid.Empty`. */
  type Guid = nat

  const EmptyGuid: Guid := 0

  /**
   * An amount of money in minor units. Balances and amounts are decimal(18,2)
   * columns, so every stored value is a whole number of cents.
   */
  type Money = int

  /** A UTC clock reading, supplied by the caller instead of `DateTime.UtcNow`. */
  type Instant = int

  /**
   * The optimistic-concurrency token: `string.Empty` by default, otherwise the
   * text of a freshly generated GUID.
   */
  datatype VersionToken = Unset | Token(guid: Guid)

  const DefaultCurrency: string := "USD"

  // ---------------------------------------------------------------- Account

  datatype Account = Account(
    id: Guid,
    accountNumber: string,
    accountHolderName: string,
    balance: Money,
    currency: string,
    isActive: bool,
    createdAt: Instant,
    updatedAt: Instant,
    version: VersionToken)

  /** `new Account()`: every property at its declared initialiser. */
  function DefaultAccount(now: Instant): (a: Account)
    ensures a.isActive && a.currency == DefaultCurrency
    ensures a.version == Unset && a.accountNumber == [] && a.accountHolderName == []
    ensures AccountFitsSchema(a)
  {
    Account(EmptyGuid, "", "", 0, DefaultCurrency, true, now, now, Unset)
  }

  /**
   * The declared string limits of an account row. `Balance` has no bound of
   * its own: nothing at the type level keeps it non-negative.
   */
  predicate AccountFitsSchema(a: Account) {
    |a.accountNumber| <= 50 && |a.accountHolderName| <= 100 && |a.currency| <= 3
  }

  // ------------------------------------------------------------ Transaction

  datatype TransactionStatus = Pending | Processing | Completed | Failed | Cancelled | RolledBack

  datatype TransactionType = Transfer | Deposit | Withdrawal | Refund

  const AllStatuses: seq<TransactionStatus> :=
    [Pending, Processing, Completed, Failed, Cancelled, RolledBack]

  const AllTypes: seq<TransactionType> := [Transfer, Deposit, Withdrawal, Refund]

  datatype Transaction = Transaction(
    id: Guid,
    fromAccountId: Guid,
    toAccountId: Guid,
    amount: Money,
    currency: string,
    description: Option<string>,
    status: TransactionStatus,
    transactionType: TransactionType,
    createdAt: Instant,
    completedAt: Option<Instant>,
    failedAt: Option<Instant>,
    failureReason: Option<string>,
    correlationId: Option<string>)

  /** `new Transaction()`: every property at its declared initialiser. */
  function DefaultTransaction(now: Instant): (t: Transaction)
    ensures t.status == Pending && t.transactionType == Transfer && t.currency == DefaultCurrency
    ensures t.completedAt.None? && t.failedAt.None? && t.failureReason.None? && t.correlationId.None?
    ensures t.createdAt == now && TransactionFitsSchema(t)
  {
    Transaction(EmptyGuid, EmptyGuid, EmptyGuid, 0, DefaultCurrency, None, Pending, Transfer,
                now, None, None, None, None)
  }

  /** The declared string limits of a transaction row. */
  predicate TransactionFitsSchema(t: Transaction) {
    |t.currency| <= 3
    && (t.description.Some? ==> |t.description.value| <= 500)
    && (t.failureReason.Some? ==> |t.failureReason.value| <= 1000)
    && (t.correlationId.Some? ==> |t.correlationId.value| <= 100)
  }

  /** The enums have exactly the listed members, each listed once. */
  lemma EnumsEnumerated()
    ensures forall s: TransactionStatus :: s in AllStatuses
    ensures forall k: TransactionType :: k in AllTypes
    ensures |AllStatuses| == 6 && |AllTypes| == 4
    ensures forall i, j :: 0 <= i < j < |AllStatuses| ==> AllStatuses[i] != AllStatuses[j]
    ensures forall i, j :: 0 <= i < j < |AllTypes| ==> AllTypes[i] != AllTypes[j]
  {
    forall s: TransactionStatus ensures s in AllStatuses {
      match s
      case Pending => assert AllStatuses[0] == s;
      case Processing => assert AllStatuses[1] == s;
      case Completed => assert AllStatuses[2] == s;
      case Failed => assert AllStatuses[3] == s;
      case Cancelled => assert AllStatuses[4] == s;
      case RolledBack => assert AllStatuses[5] == s;
    }
    forall k: TransactionType ensures k in AllTypes {
      match k
      case Transfer => assert AllTypes[0] == k;
      case Deposit => assert AllTypes[1] == k;
      case Withdrawal => assert AllTypes[2] == k;
      case Refund => assert AllTypes[3] == k;
    }
  }
}
