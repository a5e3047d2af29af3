/**
 * `get_financial_summary` (expenses/views.py): a user's expense and income
 * totals over an optional inclusive date range, and their difference.
 */
module Summary {
  import opened Wrappers
  import opened Sequences
  import opened Models
  import opened Forms

  /** `.filter(user=user)` */
  function OwnedBy(user: UserId): Transaction -> bool
  {
    (r: Transaction) => r.user == user
  }

  /** `.filter(date__gte=d)` */
  function OnOrAfter(d: Day): Transaction -> bool
  {
    (r: Transaction) => r.date >= d
  }

  /** `.filter(date__lte=d)` */
  function OnOrBefore(d: Day): Transaction -> bool
  {
    (r: Transaction) => r.date <= d
  }

  predicate InRange(day: Day, range: DateRange)
  {
    (range.from.None? || day >= range.from.value) && (range.to.None? || day <= range.to.value)
  }

  /** The rows the summary counts, stated as one predicate. */
  function Within(user: UserId, range: DateRange): Transaction -> bool
  {
    (r: Transaction) => r.user == user && InRange(r.date, range)
  }

  /**
   * The queryset `get_financial_summary` builds: the user's rows, then a lower
   * bound if one is given, then an upper bound if one is given.
   */
  function RangeQuery(rows: seq<Transaction>, user: UserId, range: DateRange): seq<Transaction>
  {
    var q0 := Select(rows, OwnedBy(user));
    var q1 := if range.from.Some? then Select(q0, OnOrAfter(range.from.value)) else q0;
    if range.to.Some? then Select(q1, OnOrBefore(range.to.value)) else q1
  }

  /**
   * The chained filters select exactly the user's rows inside the range,
   * in store order: each bound is inclusive, and an absent bound imposes nothing.
   */
  lemma RangeQueryIsWithin(rows: seq<Transaction>, user: UserId, range: DateRange)
    ensures RangeQuery(rows, user, range) == Select(rows, Within(user, range))
  {
    var lower := DateRange(range.from, None);
    if range.from.Some? {
      SelectBoth(rows, OwnedBy(user), OnOrAfter(range.from.value), Within(user, lower));
    } else {
      SelectCongruent(rows, OwnedBy(user), Within(user, lower));
    }
    if range.to.Some? {
      SelectBoth(rows, Within(user, lower), OnOrBefore(range.to.value), Within(user, range));
    } else {
      SelectCongruent(rows, Within(user, lower), Within(user, range));
    }
  }

  datatype FinancialSummary = FinancialSummary(totalExpenses: Cents, totalIncome: Cents, balance: Cents)

  /**
   * `get_financial_summary(user, date_from, date_to)`: each total sums the
   * user's rows in the range (0 when none), and the balance is income minus
   * expenses. A `from` after `to` is not an error; it selects nothing.
   */
  function FinancialSummaryOf(expenses: seq<Transaction>, incomes: seq<Transaction>, user: UserId, range: DateRange)
    : (s: FinancialSummary)
    ensures s.totalExpenses == Total(Select(expenses, Within(user, range)))
    ensures s.totalIncome == Total(Select(incomes, Within(user, range)))
    ensures s.balance == s.totalIncome - s.totalExpenses
  {
    RangeQueryIsWithin(expenses, user, range);
    RangeQueryIsWithin(incomes, user, range);
    var totalExpenses := Total(RangeQuery(expenses, user, range));
    var totalIncome := Total(RangeQuery(incomes, user, range));
    FinancialSummary(totalExpenses, totalIncome, totalIncome - totalExpenses)
  }

  /** A user with no rows in the range gets exactly zero for every figure. */
  lemma SummaryOfNothing(expenses: seq<Transaction>, incomes: seq<Transaction>, user: UserId, range: DateRange)
    requires forall r :: r in expenses ==> r.user != user || !InRange(r.date, range)
    requires forall r :: r in incomes ==> r.user != user || !InRange(r.date, range)
    ensures FinancialSummaryOf(expenses, incomes, user, range) == FinancialSummary(0, 0, 0)
  {
    SelectNone(expenses, Within(user, range));
    SelectNone(incomes, Within(user, range));
  }

  /** An inverted range (`from` after `to`) is accepted and yields zero totals. */
  lemma InvertedRangeIsEmpty(expenses: seq<Transaction>, incomes: seq<Transaction>, user: UserId, from: Day, to: Day)
    requires from > to
    ensures FinancialSummaryOf(expenses, incomes, user, DateRange(Some(from), Some(to))) == FinancialSummary(0, 0, 0)
  {
    SummaryOfNothing(expenses, incomes, user, DateRange(Some(from), Some(to)));
  }

  /** Rows of other users never change a user's summary. */
  lemma SummaryIgnoresOtherUsers(expenses: seq<Transaction>, incomes: seq<Transaction>,
                                 moreExpenses: seq<Transaction>, moreIncomes: seq<Transaction>,
                                 user: UserId, range: DateRange)
    requires forall r :: r in moreExpenses ==> r.user != user
    requires forall r :: r in moreIncomes ==> r.user != user
    ensures FinancialSummaryOf(expenses + moreExpenses, incomes + moreIncomes, user, range)
         == FinancialSummaryOf(expenses, incomes, user, range)
  {
    SelectAppend(expenses, moreExpenses, Within(user, range));
    SelectAppend(incomes, moreIncomes, Within(user, range));
    SelectNone(moreExpenses, Within(user, range));
    SelectNone(moreIncomes, Within(user, range));
    assert Select(expenses, Within(user, range)) + [] == Select(expenses, Within(user, range));
    assert Select(incomes, Within(user, range)) + [] == Select(incomes, Within(user, range));
  }

  /**
   * Splitting a closed range at a day splits each total exactly: the sums of
   * [from, mid] and [mid + 1, to] add up to the sum of [from, to].
   */
  lemma {:induction false} RangeTotalsAdd(rows: seq<Transaction>, user: UserId, from: Day, mid: Day, to: Day)
    requires from <= mid < to
    ensures Total(Select(rows, Within(user, DateRange(Some(from), Some(to)))))
         == Total(Select(rows, Within(user, DateRange(Some(from), Some(mid)))))
          + Total(Select(rows, Within(user, DateRange(Some(mid + 1), Some(to)))))
  {
    if rows != [] {
      RangeTotalsAdd(rows[1..], user, from, mid, to);
      var whole := Within(user, DateRange(Some(from), Some(to)));
      var low := Within(user, DateRange(Some(from), Some(mid)));
      var high := Within(user, DateRange(Some(mid + 1), Some(to)));
      TotalAppend(if whole(rows[0]) then [rows[0]] else [], Select(rows[1..], whole));
      TotalAppend(if low(rows[0]) then [rows[0]] else [], Select(rows[1..], low));
      TotalAppend(if high(rows[0]) then [rows[0]] else [], Select(rows[1..], high));
    }
  }

  /**
   * `IncomeListView.get_context_data`: the total of all the user's income rows,
   * which is the income total of an unbounded summary.
   */
  function IncomeListTotal(incomes: seq<Transaction>, user: UserId): (t: Cents)
    ensures t == FinancialSummaryOf([], incomes, user, DateRange(None, None)).totalIncome
  {
    SelectCongruent(incomes, OwnedBy(user), Within(user, DateRange(None, None)));
    Total(Select(incomes, OwnedBy(user)))
  }
}
