/**
 * `DashboardView.get` (expenses/views.py): the financial summary over the
 * requested range, the five newest rows of each kind, the monthly expense
 * and income series over the last 180 days, and the eight heaviest
 * category groups of the range's expenses. "Today" is a parameter.
 */
module Dashboard {
  import opened Wrappers
  import opened Sequences
  import opened Models
  import opened Forms
  import opened Summary
  import opened Grouping

  // ─── Recent rows ───────────────────────────────────────────────────────────

  const RecentCount: nat := 5

  /**
   * `Model.objects.filter(user=user)[:5]`: at most five of the user's rows in
   * listing order, and any row of the user left out is listed after all five.
   */
  function Recent(rows: seq<Transaction>, user: UserId): (r: seq<Transaction>)
    ensures |r| <= RecentCount
    ensures forall i :: 0 <= i < |r| ==> r[i] in rows && r[i].user == user
    ensures multiset(r) <= multiset(Select(rows, OwnedBy(user)))
    ensures forall i, j :: 0 <= i < j < |r| ==> ListedBefore(r[i], r[j])
    ensures forall x :: x in rows && x.user == user && x !in r ==>
              |r| == RecentCount && forall i :: 0 <= i < |r| ==> ListedBefore(r[i], x)
  {
    RecentFacts(rows, user);
    RecentInOrder(rows, user);
    Take(Listed(Select(rows, OwnedBy(user))), RecentCount)
  }

  lemma RecentInOrder(rows: seq<Transaction>, user: UserId)
    ensures var top := Take(Listed(Select(rows, OwnedBy(user))), RecentCount);
            && multiset(top) <= multiset(Select(rows, OwnedBy(user)))
            && forall i, j :: 0 <= i < j < |top| ==> ListedBefore(top[i], top[j])
  {
    var listed := Listed(Select(rows, OwnedBy(user)));
    TakeIsSubMultiset(listed, RecentCount);
    var top := Take(listed, RecentCount);
    forall i, j | 0 <= i < j < |top| ensures ListedBefore(top[i], top[j]) {
      assert top[i] == listed[i] && top[j] == listed[j];
    }
  }

  lemma RecentFacts(rows: seq<Transaction>, user: UserId)
    ensures var top := Take(Listed(Select(rows, OwnedBy(user))), RecentCount);
            && (forall i :: 0 <= i < |top| ==> top[i] in rows && top[i].user == user)
            && (forall x :: x in rows && x.user == user && x !in top ==>
                  |top| == RecentCount && forall i :: 0 <= i < |top| ==> ListedBefore(top[i], x))
  {
    var own := Select(rows, OwnedBy(user));
    var listed := Listed(own);
    var top := Take(listed, RecentCount);
    forall x | x in rows && x.user == user && x !in top
      ensures |top| == RecentCount && forall i :: 0 <= i < |top| ==> ListedBefore(top[i], x)
    {
      NewestFirst(rows, user, x);
    }
    forall i | 0 <= i < |top| ensures top[i] in rows && top[i].user == user {
      assert listed[i] in multiset(own);
      SelectMembership(rows, OwnedBy(user), listed[i]);
    }
  }

  lemma NewestFirst(rows: seq<Transaction>, user: UserId, x: Transaction)
    requires x in rows && x.user == user && x !in Take(Listed(Select(rows, OwnedBy(user))), RecentCount)
    ensures var top := Take(Listed(Select(rows, OwnedBy(user))), RecentCount);
            |top| == RecentCount && forall i :: 0 <= i < RecentCount ==> ListedBefore(top[i], x)
  {
    var listed := Listed(Select(rows, OwnedBy(user)));
    SelectMembership(rows, OwnedBy(user), x);
    assert x in multiset(listed);
    assert SortedBy(listed, ListedBefore);
    TakeSortedLeavesOut(listed, ListedBefore, RecentCount, x);
  }

  // ─── Monthly series ────────────────────────────────────────────────────────

  const WindowDays: int := 180

  /** `filter(user=user, date__gte=today - timedelta(days=180))`: no upper bound. */
  function InWindow(user: UserId, today: Day): Transaction -> bool
  {
    (r: Transaction) => r.user == user && r.date >= today - WindowDays
  }

  /** `TruncMonth('date')` */
  function ByMonth(): Transaction -> Month
  {
    (r: Transaction) => MonthOf(r.date)
  }

  predicate MonthOrder(a: Bucket<Month>, b: Bucket<Month>)
  {
    MonthLeq(a.key, b.key)
  }

  lemma MonthOrderIsTotalPreorder()
    ensures TotalPreorder(MonthOrder)
  {
  }

  /**
   * The monthly queryset: one bucket per month in which the user has a row
   * dated within the window, holding the sum of those rows, months strictly
   * ascending.
   */
  function MonthlyTotals(rows: seq<Transaction>, user: UserId, today: Day): (r: seq<Bucket<Month>>)
    ensures Summarizes(r, Select(rows, InWindow(user, today)), ByMonth())
    ensures forall i, j :: 0 <= i < j < |r| ==> MonthLeq(r[i].key, r[j].key) && r[i].key != r[j].key
  {
    var window := Select(rows, InWindow(user, today));
    var g := GroupBy(window, ByMonth());
    GroupBySummarizes(window, ByMonth());
    MonthOrderIsTotalPreorder();
    SortSorted(g, MonthOrder);
    SummarizesPermutation(g, Sort(g, MonthOrder), window, ByMonth());
    Sort(g, MonthOrder)
  }

  /** `chart_labels`: the months of the expense series. */
  function Labels(m: seq<Bucket<Month>>): (r: seq<Month>)
    ensures |r| == |m| && forall i :: 0 <= i < |m| ==> r[i] == m[i].key
  {
    seq(|m|, i requires 0 <= i < |m| => m[i].key)
  }

  /** `chart_expense_data`: the totals of the expense series. */
  function Totals(m: seq<Bucket<Month>>): (r: seq<Cents>)
    ensures |r| == |m| && forall i :: 0 <= i < |m| ==> r[i] == m[i].total
  {
    seq(|m|, i requires 0 <= i < |m| => m[i].total)
  }

  /**
   * The `chart_income_data` loop: for each label, the total of the first
   * income bucket of that month, or 0 when there is none.
   */
  method ReconcileIncome(labels: seq<Month>, income: seq<Bucket<Month>>) returns (data: seq<Cents>)
    ensures |data| == |labels|
    ensures forall i :: 0 <= i < |labels| ==> data[i] == Lookup(income, labels[i])
  {
    data := [];
    for i := 0 to |labels|
      invariant |data| == i
      invariant forall k :: 0 <= k < i ==> data[k] == Lookup(income, labels[k])
    {
      var j := 0;
      while j < |income| && income[j].key != labels[i]
        invariant 0 <= j <= |income|
        invariant Lookup(income[j..], labels[i]) == Lookup(income, labels[i])
      {
        assert income[j..][1..] == income[j + 1..];
        j := j + 1;
      }
      var found := if j < |income| then income[j].total else 0;
      data := data + [found];
    }
  }

  /**
   * Reconciling onto the expense months gives, for each label, the user's
   * income in that month within the window, 0 when there is none; income
   * months without expenses get no entry at all.
   */
  lemma ReconciledIncomeIsMonthTotal(incomes: seq<Transaction>, user: UserId, today: Day, m: Month)
    ensures Lookup(MonthlyTotals(incomes, user, today), m)
         == Total(Select(Select(incomes, InWindow(user, today)), HasKey(ByMonth(), m)))
  {
    LookupSummarizes(MonthlyTotals(incomes, user, today), Select(incomes, InWindow(user, today)), ByMonth(), m);
  }

  // ─── Category breakdown ────────────────────────────────────────────────────

  /** `values('category__name', 'category__color')`: None for an expense without a category. */
  datatype PieKey = PieKey(name: Option<string>, color: Option<string>)

  function ByCategory(cats: seq<Category>): Transaction -> PieKey
  {
    (r: Transaction) =>
      if r.category.None? then PieKey(None, None)
      else match FindCategory(cats, r.category.value)
        case Some(c) => PieKey(Some(c.name), Some(c.color))
        case None => PieKey(None, None)
  }

  predicate Heavier(a: Bucket<PieKey>, b: Bucket<PieKey>)
  {
    a.total >= b.total
  }

  const PieSize: nat := 8

  /**
   * `.annotate(total=Sum('amount')).order_by('-total')[:8]`: at most eight
   * groups, heaviest first, each with the sum of its rows; a group left out
   * only when eight are shown, none of them lighter than it.
   */
  function TopCategories(rows: seq<Transaction>, cats: seq<Category>): (top: seq<Bucket<PieKey>>)
    ensures |top| <= PieSize
    ensures forall i, j :: 0 <= i < j < |top| ==> top[i].total >= top[j].total
    ensures Distinct(top)
    ensures forall i :: 0 <= i < |top| ==> top[i].total == Total(Select(rows, HasKey(ByCategory(cats), top[i].key)))
    ensures forall k :: HasBucket(top, k) ==> KeyOccurs(rows, ByCategory(cats), k)
    ensures forall k :: KeyOccurs(rows, ByCategory(cats), k) && !HasBucket(top, k) ==>
              |top| == PieSize && forall i :: 0 <= i < |top| ==> top[i].total >= Total(Select(rows, HasKey(ByCategory(cats), k)))
  {
    var key := ByCategory(cats);
    var sorted := Sort(GroupBy(rows, key), Heavier);
    SortedGroups(rows, key);
    TopOfSorted(sorted, rows, key);
    Take(sorted, PieSize)
  }

  /** The first eight of the ordered groups keep their order, their sums and their keys' occurrence. */
  lemma TopOfSorted(sorted: seq<Bucket<PieKey>>, rows: seq<Transaction>, key: Transaction -> PieKey)
    requires Summarizes(sorted, rows, key) && SortedBy(sorted, Heavier)
    ensures var top := Take(sorted, PieSize);
            && (forall i, j :: 0 <= i < j < |top| ==> top[i].total >= top[j].total)
            && Distinct(top)
            && (forall i :: 0 <= i < |top| ==> top[i].total == Total(Select(rows, HasKey(key, top[i].key))))
            && (forall k :: HasBucket(top, k) ==> KeyOccurs(rows, key, k))
    ensures forall k :: KeyOccurs(rows, key, k) && !HasBucket(Take(sorted, PieSize), k) ==>
              |Take(sorted, PieSize)| == PieSize &&
              forall i :: 0 <= i < |Take(sorted, PieSize)| ==> Take(sorted, PieSize)[i].total >= Total(Select(rows, HasKey(key, k)))
  {
    var top := Take(sorted, PieSize);
    assert forall i :: 0 <= i < |top| ==> top[i] == sorted[i];
    forall k | HasBucket(top, k) ensures HasBucket(sorted, k) {
      var i :| 0 <= i < |top| && top[i].key == k;
    }
    forall k | KeyOccurs(rows, key, k) && !HasBucket(top, k)
      ensures |top| == PieSize && forall i :: 0 <= i < |top| ==> top[i].total >= Total(Select(rows, HasKey(key, k)))
    {
      LeftOutIsLighter(sorted, rows, key, k);
    }
  }

  /** The groups ordered heaviest first still summarize the rows. */
  lemma SortedGroups(rows: seq<Transaction>, key: Transaction -> PieKey)
    ensures Summarizes(Sort(GroupBy(rows, key), Heavier), rows, key)
    ensures SortedBy(Sort(GroupBy(rows, key), Heavier), Heavier)
  {
    var g := GroupBy(rows, key);
    GroupBySummarizes(rows, key);
    SortSorted(g, Heavier);
    SummarizesPermutation(g, Sort(g, Heavier), rows, key);
  }

  lemma LeftOutIsLighter(sorted: seq<Bucket<PieKey>>, rows: seq<Transaction>, key: Transaction -> PieKey, k: PieKey)
    requires Summarizes(sorted, rows, key) && SortedBy(sorted, Heavier)
    requires KeyOccurs(rows, key, k) && !HasBucket(Take(sorted, PieSize), k)
    ensures |Take(sorted, PieSize)| == PieSize
    ensures forall i :: 0 <= i < PieSize ==> Take(sorted, PieSize)[i].total >= Total(Select(rows, HasKey(key, k)))
  {
    var j :| 0 <= j < |sorted| && sorted[j].key == k;
    assert sorted[j] !in Take(sorted, PieSize);
    TakeSortedLeavesOut(sorted, Heavier, PieSize, sorted[j]);
  }

  const Uncategorized: string := "Uncategorized"

  /** Python's `value or fallback` on a nullable text column: NULL and "" both fall back. */
  function OrElse(v: Option<string>, fallback: string): (r: string)
    ensures v.Some? && v.value != "" ==> r == v.value
    ensures v.None? || v.value == "" ==> r == fallback
  {
    if v.Some? && v.value != "" then v.value else fallback
  }

  /** One entry of `pie_labels`, `pie_data` and `pie_colors`. */
  datatype Slice = Slice(name: string, total: Cents, color: string)

  function PieSlices(top: seq<Bucket<PieKey>>): (s: seq<Slice>)
    ensures |s| == |top|
    ensures forall i :: 0 <= i < |s| ==> s[i].total == top[i].total && s[i].name != "" && s[i].color != ""
    ensures forall i :: 0 <= i < |s| ==> (s[i].name == Uncategorized <==> top[i].key.name in {None, Some(""), Some(Uncategorized)})
    ensures forall i :: 0 <= i < |s| ==> (s[i].color == DefaultColor <==> top[i].key.color in {None, Some(""), Some(DefaultColor)})
    ensures forall i :: 0 <= i < |s| && top[i].key.name.Some? && top[i].key.name.value != "" ==> s[i].name == top[i].key.name.value
    ensures forall i :: 0 <= i < |s| && top[i].key.color.Some? && top[i].key.color.value != "" ==> s[i].color == top[i].key.color.value
  {
    seq(|top|, i requires 0 <= i < |top| =>
      Slice(OrElse(top[i].key.name, Uncategorized), top[i].total, OrElse(top[i].key.color, DefaultColor)))
  }

  // ─── The view ──────────────────────────────────────────────────────────────

  datatype DashboardData = DashboardData(
    range: DateRange,
    summary: FinancialSummary,
    recentExpenses: seq<Transaction>,
    recentIncome: seq<Transaction>,
    chartLabels: seq<Month>,
    chartExpenseData: seq<Cents>,
    chartIncomeData: seq<Cents>,
    pie: seq<Slice>)

  /**
   * `DashboardView.get` for one request. The chart series line up month by
   * month: the labels are the expense months of the window, and each income
   * entry is the user's income in that month, 0 when there is none.
   */
  method DashboardView(expenses: seq<Transaction>, incomes: seq<Transaction>, cats: seq<Category>,
                       user: UserId, form: DateRangeForm, today: Day)
    returns (d: DashboardData)
    ensures d.range == CleanDateRange(form)
    ensures d.summary == FinancialSummaryOf(expenses, incomes, user, d.range)
    ensures d.recentExpenses == Recent(expenses, user) && d.recentIncome == Recent(incomes, user)
    ensures |d.chartLabels| == |d.chartExpenseData| == |d.chartIncomeData|
    ensures var monthly := MonthlyTotals(expenses, user, today);
            |d.chartLabels| == |monthly| &&
            forall i :: 0 <= i < |monthly| ==> d.chartLabels[i] == monthly[i].key && d.chartExpenseData[i] == monthly[i].total
    ensures forall i :: 0 <= i < |d.chartLabels| ==>
              d.chartIncomeData[i] == Total(Select(Select(incomes, InWindow(user, today)), HasKey(ByMonth(), d.chartLabels[i])))
    ensures d.pie == PieSlices(TopCategories(Select(expenses, Within(user, d.range)), cats))
  {
    var range := CleanDateRange(form);
    var summary := FinancialSummaryOf(expenses, incomes, user, range);
    var monthlyExpenses := MonthlyTotals(expenses, user, today);
    var monthlyIncome := MonthlyTotals(incomes, user, today);
    var labels := Labels(monthlyExpenses);
    var incomeData := ReconcileIncome(labels, monthlyIncome);
    forall i | 0 <= i < |labels|
      ensures incomeData[i] == Total(Select(Select(incomes, InWindow(user, today)), HasKey(ByMonth(), labels[i])))
    {
      ReconciledIncomeIsMonthTotal(incomes, user, today, labels[i]);
    }
    RangeQueryIsWithin(expenses, user, range);
    var top := TopCategories(RangeQuery(expenses, user, range), cats);
    d := DashboardData(range, summary, Recent(expenses, user), Recent(incomes, user),
                       labels, Totals(monthlyExpenses), incomeData, PieSlices(top));
  }
}
