/**
 * The ledger store: the `Accounts` and `Transactions` tables of the payment
 * database, the lookups the services run against them, the one way an
 * account row is ever written, and the sum of all balances.
 */
module Ledger {
  import opened Wrappers
  import opened Models

  /**
   * The committed contents of the two tables. Accounts are reached by primary
   * key; transaction rows are kept in table order, since the services look
   * them up with "first row whose id matches".
   */
  datatype LedgerState = LedgerState(
    accounts: map<Guid, Account>,
    transactions: seq<Transaction>)

  /** The primary keys and the unique index on the account number. */
  ghost predicate WellFormed(s: LedgerState) {
    (forall k :: k in s.accounts ==> s.accounts[k].id == k)
    && (forall j, k :: j in s.accounts && k in s.accounts && j != k ==>
          s.accounts[j].accountNumber != s.accounts[k].accountNumber)
    && UniqueIds(s.transactions)
  }

  ghost predicate UniqueIds(rows: seq<Transaction>) {
    forall i, j :: 0 <= i < j < |rows| ==> rows[i].id != rows[j].id
  }

  // --------------------------------------------------------------- lookups

  /** `Accounts.FirstOrDefaultAsync(a => a.Id == id && a.IsActive)` finds a row. */
  predicate IsActiveAccount(accounts: map<Guid, Account>, id: Guid) {
    id in accounts && accounts[id].isActive
  }

  /** `Transactions.FirstOrDefaultAsync(t => t.Id == id)`: the position of the first row with that id. */
  function FindTransaction(rows: seq<Transaction>, id: Guid): (r: Option<nat>)
    ensures r.Some? ==> r.value < |rows| && rows[r.value].id == id
    ensures r.Some? ==> forall j :: 0 <= j < r.value ==> rows[j].id != id
    ensures r.None? ==> forall j :: 0 <= j < |rows| ==> rows[j].id != id
    decreases |rows|
  {
    if rows == [] then None
    else if rows[0].id == id then Some(0)
    else match FindTransaction(rows[1..], id)
      case None => None
      case Some(i) => Some(i + 1)
  }

  /** A row appended under an id the table does not hold yet is found at the end. */
  lemma FindAppended(rows: seq<Transaction>, t: Transaction)
    requires FindTransaction(rows, t.id).None?
    ensures FindTransaction(rows + [t], t.id) == Some(|rows|)
  {
    assert (rows + [t])[|rows|].id == t.id;
    assert forall j :: 0 <= j < |rows| ==> (rows + [t])[j] == rows[j];
  }

  /** Overwriting a row in place with one of the same id leaves lookups unchanged. */
  lemma FindAfterRowUpdate(rows: seq<Transaction>, i: nat, t: Transaction, id: Guid)
    requires i < |rows| && rows[i].id == t.id
    ensures FindTransaction(rows[i := t], id) == FindTransaction(rows, id)
  {
    var rows' := rows[i := t];
    assert forall j :: 0 <= j < |rows| ==> rows'[j].id == rows[j].id;
    var a, b := FindTransaction(rows', id), FindTransaction(rows, id);
    if a.Some? && b.Some? {
      assert !(a.value < b.value) && !(b.value < a.value);
    }
  }

  /** Appending a row under an id the table does not hold keeps the ids unique. */
  lemma AppendKeepsUniqueIds(rows: seq<Transaction>, t: Transaction)
    requires UniqueIds(rows) && FindTransaction(rows, t.id).None?
    ensures UniqueIds(rows + [t])
  {
    assert forall j :: 0 <= j < |rows| ==> (rows + [t])[j] == rows[j];
  }

  /** Overwriting a row with one of the same id keeps the ids unique. */
  lemma RowUpdateKeepsUniqueIds(rows: seq<Transaction>, i: nat, t: Transaction)
    requires UniqueIds(rows) && i < |rows| && rows[i].id == t.id
    ensures UniqueIds(rows[i := t])
  {
    assert forall j :: 0 <= j < |rows| ==> rows[i := t][j].id == rows[j].id;
  }

  /** The two tables are constrained separately: new rows with unique ids keep the state well formed. */
  lemma WithRowsWellFormed(s: LedgerState, rows: seq<Transaction>)
    requires WellFormed(s) && UniqueIds(rows)
    ensures WellFormed(s.(transactions := rows))
  {
  }

  // ----------------------------------------------------- writing an account

  /**
   * The only way any operation writes an account: the balance, `UpdatedAt`
   * and a freshly generated `Version` change together.
   */
  function Rebalanced(a: Account, newBalance: Money, version: Guid, now: Instant): (r: Account)
    ensures r.balance == newBalance && r.updatedAt == now && r.version == Token(version)
    ensures r.(balance := a.balance, updatedAt := a.updatedAt, version := a.version) == a
  {
    a.(balance := newBalance, updatedAt := now, version := Token(version))
  }

  function Debited(a: Account, amount: Money, version: Guid, now: Instant): (r: Account)
    ensures r.balance == a.balance - amount && r.version == Token(version)
    ensures r.id == a.id && r.accountNumber == a.accountNumber && r.isActive == a.isActive
  {
    Rebalanced(a, a.balance - amount, version, now)
  }

  function Credited(a: Account, amount: Money, version: Guid, now: Instant): (r: Account)
    ensures r.balance == a.balance + amount && r.version == Token(version)
    ensures r.id == a.id && r.accountNumber == a.accountNumber && r.isActive == a.isActive
  {
    Rebalanced(a, a.balance + amount, version, now)
  }

  /** Writing a row keeps its key and its account number, so the keys stay well formed. */
  lemma RebalancedKeepsWellFormed(s: LedgerState, id: Guid, newBalance: Money, version: Guid, now: Instant)
    requires WellFormed(s) && id in s.accounts
    ensures WellFormed(s.(accounts := s.accounts[id := Rebalanced(s.accounts[id], newBalance, version, now)]))
  {
  }

  // ------------------------------------------------------- money in total

  /** Some key of a non-empty key set; which one does not matter (see SumBalancesSplit). */
  ghost function AnyKey(keys: set<Guid>): (k: Guid)
    requires keys != {}
    ensures k in keys
  {
    var k :| k in keys; k
  }

  /** The sum of the balances of the accounts under `keys`. */
  ghost function SumBalances(accounts: map<Guid, Account>, keys: set<Guid>): int
    requires keys <= accounts.Keys
    decreases keys
  {
    if keys == {} then 0
    else
      var k := AnyKey(keys);
      accounts[k].balance + SumBalances(accounts, keys - {k})
  }

  /** All the money the ledger holds. */
  ghost function TotalBalance(accounts: map<Guid, Account>): int {
    SumBalances(accounts, accounts.Keys)
  }

  /** The sum may be split at any key, not only the one the definition picks. */
  lemma {:induction false} SumBalancesSplit(accounts: map<Guid, Account>, keys: set<Guid>, k: Guid)
    requires keys <= accounts.Keys && k in keys
    ensures SumBalances(accounts, keys) == accounts[k].balance + SumBalances(accounts, keys - {k})
    decreases keys
  {
    var j := AnyKey(keys);
    if j != k {
      SumBalancesSplit(accounts, keys - {j}, k);
      SumBalancesSplit(accounts, keys - {k}, j);
      assert keys - {j} - {k} == keys - {k} - {j};
    }
  }

  /** Two maps whose balances agree on `keys` have the same sum over `keys`. */
  lemma {:induction false} SumBalancesAgree(m1: map<Guid, Account>, m2: map<Guid, Account>, keys: set<Guid>)
    requires keys <= m1.Keys && keys <= m2.Keys
    requires forall k :: k in keys ==> m1[k].balance == m2[k].balance
    ensures SumBalances(m1, keys) == SumBalances(m2, keys)
    decreases keys
  {
    if keys != {} {
      var k :| k in keys;
      SumBalancesSplit(m1, keys, k);
      SumBalancesSplit(m2, keys, k);
      SumBalancesAgree(m1, m2, keys - {k});
    }
  }

  /** Replacing one account row changes the total by exactly the change of that row's balance. */
  lemma {:induction false} TotalAfterWrite(accounts: map<Guid, Account>, id: Guid, a: Account)
    requires id in accounts
    ensures TotalBalance(accounts[id := a]) == TotalBalance(accounts) - accounts[id].balance + a.balance
  {
    var m := accounts[id := a];
    assert m.Keys == accounts.Keys;
    SumBalancesSplit(m, m.Keys, id);
    SumBalancesSplit(accounts, accounts.Keys, id);
    SumBalancesAgree(m, accounts, accounts.Keys - {id});
  }

  // ----------------------------------------------------------- the store

  /** The database context: the two tables, updated in place by the services. */
  class PaymentDbContext {
    var accounts: map<Guid, Account>
    var transactions: seq<Transaction>

    constructor ()
      ensures accounts == map[] && transactions == [] && Valid()
    {
      accounts := map[];
      transactions := [];
    }

    function State(): LedgerState
      reads this
    {
      LedgerState(accounts, transactions)
    }

    /** `RollbackAsync`: the tables return to what was committed when the database transaction began. */
    method Restore(committedAccounts: map<Guid, Account>, committedRows: seq<Transaction>)
      modifies this
      ensures accounts == committedAccounts && transactions == committedRows
    {
      accounts, transactions := committedAccounts, committedRows;
    }

    ghost predicate Valid()
      reads this
    {
      WellFormed(State())
    }
  }
}
