/**
 * `ExpenseListView.get_queryset` and `get_context_data` (expenses/views.py):
 * the user's expenses narrowed by every predicate the filter form supplies,
 * in listing order, and the total of what is listed.
 */
module ExpenseList {
  import opened Wrappers
  import opened Sequences
  import opened Models
  import opened Forms
  import opened Summary
  import Text

  /** `Q(title__icontains=s) | Q(description__icontains=s)`; a NULL description matches nothing. */
  predicate SearchMatches(search: string, e: Transaction)
  {
    Text.IContains(e.title, search) || (e.description.Some? && Text.IContains(e.description.value, search))
  }

  /**
   * The reference meaning of a cleaned filter: every supplied predicate holds.
   * An empty search, category or date is not supplied; an amount bound is
   * supplied whenever present, zero included.
   */
  predicate Matches(f: ExpenseFilter, e: Transaction)
  {
    && (f.search == "" || SearchMatches(f.search, e))
    && (f.category.None? || e.category == f.category)
    && (f.dateFrom.None? || e.date >= f.dateFrom.value)
    && (f.dateTo.None? || e.date <= f.dateTo.value)
    && (f.amountMin.None? || e.amount >= f.amountMin.value)
    && (f.amountMax.None? || e.amount <= f.amountMax.value)
  }

  /** The rows a (possibly invalid) filter form lets through: all of them when it is invalid. */
  predicate Admits(f: Option<ExpenseFilter>, e: Transaction)
  {
    f.None? || Matches(f.value, e)
  }

  function Listable(user: UserId, f: Option<ExpenseFilter>): Transaction -> bool
  {
    (e: Transaction) => e.user == user && Admits(f, e)
  }

  function SearchFor(search: string): Transaction -> bool
  {
    (e: Transaction) => SearchMatches(search, e)
  }

  function InCategory(id: nat): Transaction -> bool
  {
    (e: Transaction) => e.category == Some(id)
  }

  function AtLeast(c: Cents): Transaction -> bool
  {
    (e: Transaction) => e.amount >= c
  }

  function AtMost(c: Cents): Transaction -> bool
  {
    (e: Transaction) => e.amount <= c
  }

  function CategoryId(c: ExpenseFilter): nat
  {
    if c.category.Some? then c.category.value else 0
  }

  function FromDay(c: ExpenseFilter): Day
  {
    if c.dateFrom.Some? then c.dateFrom.value else 0
  }

  function ToDay(c: ExpenseFilter): Day
  {
    if c.dateTo.Some? then c.dateTo.value else 0
  }

  function MinAmount(c: ExpenseFilter): Cents
  {
    if c.amountMin.Some? then c.amountMin.value else 0
  }

  function MaxAmount(c: ExpenseFilter): Cents
  {
    if c.amountMax.Some? then c.amountMax.value else 0
  }

  /** `get_queryset` before ordering: the user's rows, then one `.filter` per supplied field. */
  function FilterQuery(rows: seq<Transaction>, user: UserId, f: Option<ExpenseFilter>): seq<Transaction>
  {
    var q := Select(rows, OwnedBy(user));
    match f
    case None => q
    case Some(c) =>
      var q1 := When(q, c.search != "", SearchFor(c.search));
      var q2 := When(q1, c.category.Some?, InCategory(CategoryId(c)));
      var q3 := When(q2, c.dateFrom.Some?, OnOrAfter(FromDay(c)));
      var q4 := When(q3, c.dateTo.Some?, OnOrBefore(ToDay(c)));
      var q5 := When(q4, c.amountMin.Some?, AtLeast(MinAmount(c)));
      When(q5, c.amountMax.Some?, AtMost(MaxAmount(c)))
  }

  /** The predicate the chain of filters accumulates. */
  function Chain(user: UserId, c: ExpenseFilter): Transaction -> bool
  {
    var p1 := AndWhen(OwnedBy(user), c.search != "", SearchFor(c.search));
    var p2 := AndWhen(p1, c.category.Some?, InCategory(CategoryId(c)));
    var p3 := AndWhen(p2, c.dateFrom.Some?, OnOrAfter(FromDay(c)));
    var p4 := AndWhen(p3, c.dateTo.Some?, OnOrBefore(ToDay(c)));
    var p5 := AndWhen(p4, c.amountMin.Some?, AtLeast(MinAmount(c)));
    AndWhen(p5, c.amountMax.Some?, AtMost(MaxAmount(c)))
  }

  lemma ChainMeansMatches(user: UserId, c: ExpenseFilter, e: Transaction)
    ensures Chain(user, c)(e) == (e.user == user && Matches(c, e))
  {
  }

  lemma FilterQueryIsChain(rows: seq<Transaction>, user: UserId, c: ExpenseFilter)
    ensures FilterQuery(rows, user, Some(c)) == Select(rows, Chain(user, c))
  {
    var p1 := AndWhen(OwnedBy(user), c.search != "", SearchFor(c.search));
    var p2 := AndWhen(p1, c.category.Some?, InCategory(CategoryId(c)));
    var p3 := AndWhen(p2, c.dateFrom.Some?, OnOrAfter(FromDay(c)));
    var p4 := AndWhen(p3, c.dateTo.Some?, OnOrBefore(ToDay(c)));
    var p5 := AndWhen(p4, c.amountMin.Some?, AtLeast(MinAmount(c)));
    WhenSelect(rows, OwnedBy(user), c.search != "", SearchFor(c.search));
    WhenSelect(rows, p1, c.category.Some?, InCategory(CategoryId(c)));
    WhenSelect(rows, p2, c.dateFrom.Some?, OnOrAfter(FromDay(c)));
    WhenSelect(rows, p3, c.dateTo.Some?, OnOrBefore(ToDay(c)));
    WhenSelect(rows, p4, c.amountMin.Some?, AtLeast(MinAmount(c)));
    WhenSelect(rows, p5, c.amountMax.Some?, AtMost(MaxAmount(c)));
  }

  /** The chain of filters selects exactly the user's rows that satisfy every supplied predicate. */
  lemma FilterQueryIsConjunction(rows: seq<Transaction>, user: UserId, f: Option<ExpenseFilter>)
    ensures FilterQuery(rows, user, f) == Select(rows, Listable(user, f))
  {
    match f
    case None =>
      SelectCongruent(rows, OwnedBy(user), Listable(user, f));
    case Some(c) =>
      FilterQueryIsChain(rows, user, c);
      forall e | e in rows ensures Chain(user, c)(e) == Listable(user, f)(e) {
        ChainMeansMatches(user, c, e);
      }
      SelectCongruent(rows, Chain(user, c), Listable(user, f));
  }

  datatype ExpenseListPage = ExpenseListPage(expenses: seq<Transaction>, totalFiltered: Cents)

  /**
   * `ExpenseListView` for one request: the filter form is cleaned against the
   * user's categories; the listed expenses are exactly the user's expenses
   * that satisfy every supplied predicate (all of them when the form is
   * invalid), newest first; `totalFiltered` is their sum, 0 when none.
   */
  function ListExpenses(rows: seq<Transaction>, cats: seq<Category>, user: UserId, form: FilterForm)
    : (page: ExpenseListPage)
    ensures var f := CleanFilter(form, cats, user);
            forall e :: e in page.expenses <==> e in rows && e.user == user && Admits(f, e)
    ensures var f := CleanFilter(form, cats, user);
            multiset(page.expenses) == multiset(Select(rows, Listable(user, f)))
    ensures forall i, j :: 0 <= i < j < |page.expenses| ==> ListedBefore(page.expenses[i], page.expenses[j])
    ensures var f := CleanFilter(form, cats, user);
            page.totalFiltered == Total(Select(rows, Listable(user, f)))
  {
    var f := CleanFilter(form, cats, user);
    var q := FilterQuery(rows, user, f);
    FilterQueryIsConjunction(rows, user, f);
    var listed := Listed(q);
    TotalPermutation(listed, q);
    forall e ensures e in listed <==> e in rows && e.user == user && Admits(f, e) {
      assert e in listed <==> e in multiset(listed);
      assert e in q <==> e in multiset(q);
      SelectMembership(rows, Listable(user, f), e);
    }
    ExpenseListPage(listed, Total(listed))
  }

  /**
   * With a valid filter form, a row is listed exactly when it is the user's,
   * passes the other supplied predicates, and its amount in currency units
   * lies within the submitted decimal bounds, sub-cent bounds included.
   */
  lemma ListedWithinDecimalBounds(rows: seq<Transaction>, cats: seq<Category>, user: UserId, form: FilterForm, e: Transaction)
    requires CleanFilter(form, cats, user).Some?
    ensures var f := CleanFilter(form, cats, user).value;
            e in ListExpenses(rows, cats, user, form).expenses <==>
              && e in rows && e.user == user && Matches(f.(amountMin := None, amountMax := None), e)
              && (form.amountMin.None? || e.amount as real / 100.0 >= form.amountMin.value)
              && (form.amountMax.None? || e.amount as real / 100.0 <= form.amountMax.value)
  {
    var f := CleanFilter(form, cats, user).value;
    var page := ListExpenses(rows, cats, user, form);
    assert e in page.expenses <==> e in rows && e.user == user && Matches(f, e);
    MatchesSplit(f, e);
    if form.amountMin.Some? {
      BoundsInCents(form.amountMin.value, e.amount);
    }
    if form.amountMax.Some? {
      BoundsInCents(form.amountMax.value, e.amount);
    }
  }

  /** The amount bounds of a filter are two conjuncts apart from the other predicates. */
  lemma MatchesSplit(f: ExpenseFilter, e: Transaction)
    ensures Matches(f, e) <==>
              && Matches(f.(amountMin := None, amountMax := None), e)
              && (f.amountMin.None? || e.amount >= f.amountMin.value)
              && (f.amountMax.None? || e.amount <= f.amountMax.value)
  {
  }

  /**
   * An invalid filter form (malformed input, a NUL in the search, or a category
   * that is not the user's) lists every expense of the user, and totals them all.
   */
  lemma InvalidFilterListsEverything(rows: seq<Transaction>, cats: seq<Category>, user: UserId, form: FilterForm)
    requires CleanFilter(form, cats, user).None?
    ensures multiset(ListExpenses(rows, cats, user, form).expenses) == multiset(Select(rows, OwnedBy(user)))
    ensures ListExpenses(rows, cats, user, form).totalFiltered
         == FinancialSummaryOf(rows, [], user, DateRange(None, None)).totalExpenses
  {
    SelectCongruent(rows, Listable(user, None), OwnedBy(user));
    SelectCongruent(rows, Listable(user, None), Within(user, DateRange(None, None)));
  }

  /** Two filters supply disjoint sets of fields. */
  predicate Disjoint(a: ExpenseFilter, b: ExpenseFilter)
  {
    && (a.search == "" || b.search == "")
    && (a.category.None? || b.category.None?)
    && (a.dateFrom.None? || b.dateFrom.None?)
    && (a.dateTo.None? || b.dateTo.None?)
    && (a.amountMin.None? || b.amountMin.None?)
    && (a.amountMax.None? || b.amountMax.None?)
  }

  function Pick<T>(x: Option<T>, y: Option<T>): Option<T>
  {
    if x.Some? then x else y
  }

  /** The filter supplying the fields of both. */
  function Merge(a: ExpenseFilter, b: ExpenseFilter): ExpenseFilter
  {
    ExpenseFilter(
      if a.search != "" then a.search else b.search,
      Pick(a.category, b.category), Pick(a.dateFrom, b.dateFrom), Pick(a.dateTo, b.dateTo),
      Pick(a.amountMin, b.amountMin), Pick(a.amountMax, b.amountMax))
  }

  /**
   * Conjunction is intersection: filtering by the predicates of two filters
   * together lists exactly the rows (with their multiplicities) that both
   * filters list on their own.
   */
  lemma FilterIsIntersection(rows: seq<Transaction>, user: UserId, a: ExpenseFilter, b: ExpenseFilter)
    requires Disjoint(a, b)
    ensures multiset(Select(rows, Listable(user, Some(Merge(a, b)))))
         == multiset(Select(rows, Listable(user, Some(a)))) * multiset(Select(rows, Listable(user, Some(b))))
  {
    var m := Merge(a, b);
    forall x ensures multiset(Select(rows, Listable(user, Some(m))))[x]
                  == (multiset(Select(rows, Listable(user, Some(a)))) * multiset(Select(rows, Listable(user, Some(b)))))[x]
    {
      SelectMultiplicity(rows, Listable(user, Some(m)), x);
      SelectMultiplicity(rows, Listable(user, Some(a)), x);
      SelectMultiplicity(rows, Listable(user, Some(b)), x);
      MatchesMerge(a, b, x);
    }
  }

  lemma MatchesMerge(a: ExpenseFilter, b: ExpenseFilter, x: Transaction)
    requires Disjoint(a, b)
    ensures Matches(Merge(a, b), x) == (Matches(a, x) && Matches(b, x))
  {
  }
}
