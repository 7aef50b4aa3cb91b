/**
 * How the paged transaction listing and its page count fit together: a page
 * is non-empty exactly up to the last page, and every row of the account is
 * on the page its position says.
 */
module ListingProperties {
  import opened Wrappers
  import opened Models
  import opened Queries
  import opened PaymentService

  /** With `pageSize > 0`, a page past the first holds rows exactly when it is not past `TotalPages`. */
  lemma PageFilledUpToTotalPages(rows: seq<Transaction>, q: GetAccountTransactionsQuery)
    requires q.page >= 1 && q.pageSize > 0
    ensures var r := AccountTransactions(rows, q);
            r.transactions != [] <==> q.page <= TotalPages(r)
  {
    ListingIsPage(rows, q);
    PageCountAgrees(SortNewestFirst(RowsInvolving(rows, q.accountId)), q.page, q.pageSize);
  }

  /** The same, for a page of any sequence of rows. */
  lemma PageCountAgrees(matching: seq<Transaction>, page: int, pageSize: int)
    requires page >= 1 && pageSize > 0
    ensures var r := GetAccountTransactionsResult(Views(PageOf(matching, page, pageSize)), |matching|, page, pageSize);
            r.transactions != [] <==> page <= TotalPages(r)
  {
    var r := GetAccountTransactionsResult(Views(PageOf(matching, page, pageSize)), |matching|, page, pageSize);
    PageNonEmpty(matching, page, pageSize);
    PageWithinTotalPages(r, page);
  }

  /**
   * Unfolding helper: `AccountTransactions` written out as the page of the
   * sorted matching rows, so that page-level lemmas lift to the listing.
   */
  lemma ListingIsPage(rows: seq<Transaction>, q: GetAccountTransactionsQuery)
    ensures var matching := SortNewestFirst(RowsInvolving(rows, q.accountId));
            AccountTransactions(rows, q)
            == GetAccountTransactionsResult(Views(PageOf(matching, q.page, q.pageSize)), |matching|, q.page, q.pageSize)
  {
  }

  /** Page `page` is empty exactly when it starts at or after the end. */
  lemma PageNonEmpty(rows: seq<Transaction>, page: int, pageSize: int)
    requires page >= 1 && pageSize > 0
    ensures PageOf(rows, page, pageSize) != [] <==> (page - 1) * pageSize < |rows|
  {
    var want := (page - 1) * pageSize;
    assert want >= 0 by {
      MultiplyMonotone(0, page - 1, pageSize);
    }
    if want < |rows| {
      assert SkipCount(|rows|, page, pageSize) == want;
    }
  }

  /**
   * Page `page` of size `pageSize` is the slice of `rows` that starts at
   * `(page - 1) * pageSize`: empty when that is past the end, and otherwise
   * `pageSize` rows, or fewer on the last page, taken in order from there.
   */
  lemma PageIsSlice(rows: seq<Transaction>, page: int, pageSize: int)
    requires page >= 1 && pageSize > 0
    ensures var start, p := (page - 1) * pageSize, PageOf(rows, page, pageSize);
            (start >= |rows| ==> p == [])
            && (start < |rows| ==>
                  |p| == (if |rows| - start < pageSize then |rows| - start else pageSize)
                  && forall i :: 0 <= i < |p| ==> p[i] == rows[start + i])
  {
    var start := (page - 1) * pageSize;
    assert start >= 0 by {
      MultiplyMonotone(0, page - 1, pageSize);
    }
    if start < |rows| {
      assert SkipCount(|rows|, page, pageSize) == start;
    }
  }

  /**
   * The listing shows the views of the account's rows, newest first, from
   * position `(page - 1) * pageSize` on: as many as the page holds, or what
   * is left of `totalCount`, and none past the end.
   */
  lemma ListingIsSlice(rows: seq<Transaction>, q: GetAccountTransactionsQuery)
    requires q.page >= 1 && q.pageSize > 0
    ensures var r, matching := AccountTransactions(rows, q), SortNewestFirst(RowsInvolving(rows, q.accountId));
            PageViewsSlice(r, matching)
  {
    ListingIsPage(rows, q);
    PageViewsAreSlice(SortNewestFirst(RowsInvolving(rows, q.accountId)), q.page, q.pageSize);
  }

  /** `r` shows the views of `matching` from its page's first position, as many as fit. */
  predicate PageViewsSlice(r: GetAccountTransactionsResult, matching: seq<Transaction>) {
    var start := (r.page - 1) * r.pageSize;
    r.totalCount == |matching|
    && (start >= r.totalCount ==> r.transactions == [])
    && (0 <= start < r.totalCount ==>
          |r.transactions| == (if r.totalCount - start < r.pageSize then r.totalCount - start else r.pageSize)
          && ShowsFrom(r.transactions, matching, start))
  }

  /** `views` are the views of the rows of `matching` from position `start` on. */
  predicate ShowsFrom(views: seq<GetTransactionResult>, matching: seq<Transaction>, start: int) {
    forall i :: 0 <= i < |views| ==> 0 <= start + i < |matching| && views[i] == TransactionView(matching[start + i])
  }

  /** The same for a page of any row sequence. */
  lemma PageViewsAreSlice(matching: seq<Transaction>, page: int, pageSize: int)
    requires page >= 1 && pageSize > 0
    ensures PageViewsSlice(GetAccountTransactionsResult(Views(PageOf(matching, page, pageSize)), |matching|,
                                                        page, pageSize), matching)
  {
    var start := (page - 1) * pageSize;
    PageIsSlice(matching, page, pageSize);
    if 0 <= start < |matching| {
      ViewsShowFrom(PageOf(matching, page, pageSize), matching, start);
    }
  }

  lemma ViewsShowFrom(rows: seq<Transaction>, matching: seq<Transaction>, start: int)
    requires forall i :: 0 <= i < |rows| ==> 0 <= start + i < |matching| && rows[i] == matching[start + i]
    ensures ShowsFrom(Views(rows), matching, start)
  {
  }

  /** Page `page` starts before the last row exactly when it is not past `TotalPages`. */
  lemma PageWithinTotalPages(r: GetAccountTransactionsResult, page: int)
    requires page >= 1 && r.pageSize > 0 && r.totalCount >= 0
    ensures (page - 1) * r.pageSize < r.totalCount <==> page <= TotalPages(r)
  {
    var n, p, c := TotalPages(r), r.pageSize, r.totalCount;
    if page <= n {
      MultiplyMonotone(page - 1, n - 1, p);
    } else {
      MultiplyMonotone(n, page - 1, p);
    }
  }

  lemma MultiplyMonotone(a: int, b: int, p: int)
    requires a <= b && p > 0
    ensures a * p <= b * p
  {
    assert b * p - a * p == (b - a) * p;
  }

  /** With `pageSize > 0`, the row at position `k` is at position `k % pageSize` of page `k / pageSize + 1`. */
  lemma RowOnItsPage(rows: seq<Transaction>, pageSize: int, k: int)
    requires pageSize > 0 && 0 <= k < |rows|
    ensures var page := PageOf(rows, k / pageSize + 1, pageSize);
            k % pageSize < |page| && page[k % pageSize] == rows[k]
  {
    var q, m := k / pageSize, k % pageSize;
    assert k == q * pageSize + m;
    assert (q + 1 - 1) * pageSize == q * pageSize;
    assert 0 <= q * pageSize <= k by {
      MultiplyMonotone(0, q, pageSize);
    }
    assert SkipCount(|rows|, q + 1, pageSize) == q * pageSize;
  }

  /** Every row sits on some page from the first on. */
  lemma RowOnSomePage(rows: seq<Transaction>, pageSize: int, k: int)
    requires pageSize > 0 && 0 <= k < |rows|
    ensures exists page, i :: page >= 1 && 0 <= i < |PageOf(rows, page, pageSize)|
                              && PageOf(rows, page, pageSize)[i] == rows[k]
  {
    RowOnItsPage(rows, pageSize, k);
    assert k / pageSize + 1 >= 1;
  }

  /**
   * Paging loses nothing: every row that involves the account is shown, as
   * its view, on some page.
   */
  lemma EveryRowListed(rows: seq<Transaction>, accountId: Guid, pageSize: int, t: Transaction)
    requires pageSize > 0 && t in rows && Involves(t, accountId)
    ensures exists page :: page >= 1 && TransactionView(t) in
              AccountTransactions(rows, GetAccountTransactionsQuery(accountId, page, pageSize)).transactions
  {
    var matching := SortNewestFirst(RowsInvolving(rows, accountId));
    assert t in matching by {
      assert t in multiset(RowsInvolving(rows, accountId));
    }
    var k :| 0 <= k < |matching| && matching[k] == t;
    RowOnSomePage(matching, pageSize, k);
    var page, i :| page >= 1 && 0 <= i < |PageOf(matching, page, pageSize)|
                   && PageOf(matching, page, pageSize)[i] == t;
    var q := GetAccountTransactionsQuery(accountId, page, pageSize);
    var listing := AccountTransactions(rows, q).transactions;
    assert listing == Views(PageOf(matching, page, pageSize)) by {
      ListingIsPage(rows, q);
    }
    assert listing[i] == TransactionView(t);
  }
}
