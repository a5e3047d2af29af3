/**
 * The persisted records of the finance tracker (expenses/models.py) as
 * values: a user's profile, categories, and the two structurally identical
 * transaction kinds, Expense and Income. Amounts are integer cents, dates
 * are day numbers, timestamps are opaque integers.
 */
module Models {
  import opened Wrappers
  import opened Sequences
  import Text

  type UserId = nat

  /** A money amount in hundredths: exact for a decimal field with 2 decimal places. */
  type Cents = int

  /** A calendar date as a day number, 0 being 1970-01-01. */
  type Day = int

  type Timestamp = int

  datatype User = User(id: UserId, username: string, email: string)

  /** The default currency symbol of a profile. */
  const DefaultCurrency: string := "$"

  /** The neutral grey of a category without a colour of its own. */
  const DefaultColor: string := "#6c757d"

  /** One profile per user; `picture` is the stored file name of the avatar, if any. */
  datatype UserProfile = UserProfile(
    user: UserId,
    picture: Option<string>,
    currency: string,
    darkMode: bool,
    createdAt: Timestamp)

  /** The profile `UserProfile.objects.create(user=...)` stores: every field at its default. */
  function NewProfile(user: UserId, now: Timestamp): UserProfile
  {
    UserProfile(user, None, DefaultCurrency, false, now)
  }

  /**
   * `get_picture_url`: the storage URL of the avatar, or None when no file is
   * set (a file field with an empty name is falsy too). The storage quotes
   * the stored name and appends it to the media URL.
   */
  function PictureUrl(p: UserProfile, mediaUrl: string): (r: Option<string>)
    ensures r.None? <==> p.picture == None || p.picture == Some("")
    ensures r.Some? ==> r.value == mediaUrl + Text.FilepathToUri(p.picture.value)
  {
    match p.picture
    case Some(name) => if name == "" then None else Some(mediaUrl + Text.FilepathToUri(name))
    case None => None
  }

  /**
   * The part of the picture URL after the media URL is plain URL text that
   * unquotes to the stored name's UTF-8 bytes, backslashes read as slashes.
   */
  lemma PictureUrlNamesTheFile(p: UserProfile, mediaUrl: string)
    requires PictureUrl(p, mediaUrl).Some?
    ensures var u := PictureUrl(p, mediaUrl).value;
            && mediaUrl <= u
            && Text.PercentDecode(u[|mediaUrl|..]) == Text.Utf8Encode(Text.ForwardSlashes(p.picture.value))
  {
    var u := PictureUrl(p, mediaUrl).value;
    assert u[|mediaUrl|..] == Text.Quote(Text.ForwardSlashes(p.picture.value));
    Text.QuoteRoundTrip(Text.ForwardSlashes(p.picture.value));
  }

  /** `Category.CATEGORY_TYPES`: the only three values `category_type` may hold. */
  datatype CategoryType = ExpenseType | IncomeType | BothType

  datatype Category = Category(
    id: nat,
    user: UserId,
    name: string,
    kind: CategoryType,
    icon: string,
    color: string,
    isDefault: bool,
    createdAt: Timestamp)

  const DefaultCategoryIcon: string := "bi-tag"

  /**
   * A category saved with only its owner and name given: every other field
   * takes its model default, so it is an expense category with the tag icon,
   * the neutral grey and no default mark. Every path that creates a category
   * starts from these and overrides what its form or catalog entry supplies.
   */
  function NewCategory(id: nat, user: UserId, name: string, now: Timestamp): (c: Category)
    ensures c.id == id && c.user == user && c.name == name && c.createdAt == now
    ensures c.kind == ExpenseType && c.icon == DefaultCategoryIcon && c.color == DefaultColor && !c.isDefault
  {
    Category(id, user, name, ExpenseType, DefaultCategoryIcon, DefaultColor, false, now)
  }

  /** The category a foreign key points to, if it still exists: the join behind `category__name`. */
  function FindCategory(cats: seq<Category>, id: nat): (r: Option<Category>)
    ensures r.Some? ==> r.value in cats && r.value.id == id
    ensures r.None? ==> forall c :: c in cats ==> c.id != id
  {
    if cats == [] then None
    else if cats[0].id == id then Some(cats[0])
    else FindCategory(cats[1..], id)
  }

  /** Expense and Income rows share one shape; the store keeps them in separate tables. */
  datatype TransactionKind = ExpenseKind | IncomeKind

  datatype Transaction = Transaction(
    id: nat,
    user: UserId,
    title: string,
    amount: Cents,
    category: Option<nat>,
    date: Day,
    description: Option<string>,
    createdAt: Timestamp,
    updatedAt: Timestamp)

  /**
   * `DecimalField(max_digits=12, decimal_places=2)`: at most 12 digits of which
   * 2 follow the point, so at most 999 999 999 999 cents in magnitude.
   */
  const AmountBound: int := 1_000_000_000_000

  predicate FitsAmountField(c: Cents)
  {
    -AmountBound < c < AmountBound
  }

  /** The sum of the amounts of `rows`: `aggregate(Sum('amount'))` followed by `or 0`. */
  function Total(rows: seq<Transaction>): Cents
  {
    if rows == [] then 0 else rows[0].amount + Total(rows[1..])
  }

  lemma {:induction false} TotalAppend(a: seq<Transaction>, b: seq<Transaction>)
    ensures Total(a + b) == Total(a) + Total(b)
  {
    if a == [] {
      assert a + b == b;
    } else {
      assert (a + b)[0] == a[0] && (a + b)[1..] == a[1..] + b;
      TotalAppend(a[1..], b);
    }
  }

  /** The head row counts towards a filtered sum exactly when it passes the filter. */
  lemma TotalSelectCons(rows: seq<Transaction>, p: Transaction -> bool)
    requires rows != []
    ensures Total(Select(rows, p)) == (if p(rows[0]) then rows[0].amount else 0) + Total(Select(rows[1..], p))
  {
    TotalAppend(if p(rows[0]) then [rows[0]] else [], Select(rows[1..], p));
  }

  /** Removing the row at `k` takes its amount out of the sum. */
  lemma TotalRemove(b: seq<Transaction>, k: nat)
    requires k < |b|
    ensures Total(b) == b[k].amount + Total(b[..k] + b[k + 1..])
  {
    var tail := b[k..];
    assert b == b[..k] + tail;
    assert tail[0] == b[k] && tail[1..] == b[k + 1..];
    TotalAppend(b[..k], tail);
    TotalAppend(b[..k], b[k + 1..]);
  }

  /** Removing the row at `k` takes one copy of it out of the rows. */
  lemma RemoveOne(b: seq<Transaction>, k: nat)
    requires k < |b|
    ensures multiset(b[..k] + b[k + 1..]) == multiset(b) - multiset{b[k]}
  {
    assert b == b[..k] + [b[k]] + b[k + 1..];
  }

  /** A sum does not depend on the order of the rows. */
  lemma {:induction false} TotalPermutation(a: seq<Transaction>, b: seq<Transaction>)
    requires multiset(a) == multiset(b)
    ensures Total(a) == Total(b)
  {
    if a == [] {
      assert b == [] by { assert |b| == |multiset(b)| == 0; }
    } else {
      assert a[0] in multiset(b);
      var k :| 0 <= k < |b| && b[k] == a[0];
      var rest := b[..k] + b[k + 1..];
      PermutationTail(a, b, k);
      TotalPermutation(a[1..], rest);
      TotalRemove(b, k);
    }
  }

  /** Taking the head of `a` and a copy of it from `b` leaves two permutations of each other. */
  lemma PermutationTail(a: seq<Transaction>, b: seq<Transaction>, k: nat)
    requires multiset(a) == multiset(b) && a != [] && k < |b| && b[k] == a[0]
    ensures multiset(a[1..]) == multiset(b[..k] + b[k + 1..])
  {
    RemoveOne(b, k);
    assert a == [a[0]] + a[1..];
  }

  /** Rows that pass a filter and rows that fail it add up to all the rows. */
  lemma {:induction false} TotalSplit(rows: seq<Transaction>, p: Transaction -> bool)
    ensures Total(Select(rows, p)) + Total(Select(rows, x => !p(x))) == Total(rows)
  {
    if rows != [] {
      TotalSplit(rows[1..], p);
      var head := if p(rows[0]) then [rows[0]] else [];
      var other := if !p(rows[0]) then [rows[0]] else [];
      TotalAppend(head, Select(rows[1..], p));
      TotalAppend(other, Select(rows[1..], x => !p(x)));
    }
  }

  /** `Meta.ordering = ['-date', '-created_at']`: newer dates first, same-day rows newest first. */
  predicate ListedBefore(a: Transaction, b: Transaction)
  {
    a.date > b.date || (a.date == b.date && a.createdAt >= b.createdAt)
  }

  /** A queryset of Expense or Income rows in its default order. */
  function Listed(rows: seq<Transaction>): (r: seq<Transaction>)
    ensures multiset(r) == multiset(rows)
    ensures forall i, j :: 0 <= i < j < |r| ==>
              r[i].date > r[j].date || (r[i].date == r[j].date && r[i].createdAt >= r[j].createdAt)
  {
    assert TotalPreorder(ListedBefore);
    SortSorted(rows, ListedBefore);
    Sort(rows, ListedBefore)
  }

  /** `Category.Meta.ordering = ['name']`. */
  predicate NamedBefore(a: Category, b: Category)
  {
    Text.NameLeq(a.name, b.name)
  }

  lemma NameOrderIsTotalPreorder()
    ensures TotalPreorder(NamedBefore)
  {
    forall a: Category, b: Category ensures NamedBefore(a, b) || NamedBefore(b, a) {
      Text.NameLeqTotal(a.name, b.name);
    }
    forall a: Category, b: Category, c: Category | NamedBefore(a, b) && NamedBefore(b, c)
      ensures NamedBefore(a, c)
    {
      Text.NameLeqTransitive(a.name, b.name, c.name);
    }
  }

  /** A queryset of categories in its default order. */
  function ListedByName(cats: seq<Category>): (r: seq<Category>)
    ensures multiset(r) == multiset(cats)
    ensures forall i, j :: 0 <= i < j < |r| ==> Text.NameLeq(r[i].name, r[j].name)
  {
    NameOrderIsTotalPreorder();
    SortSorted(cats, NamedBefore);
    Sort(cats, NamedBefore)
  }

  /** A calendar month, the value `TruncMonth('date')` groups by. */
  datatype Month = Month(year: int, month: int)

  predicate MonthLeq(a: Month, b: Month)
  {
    a.year < b.year || (a.year == b.year && a.month <= b.month)
  }

  /**
   * The proleptic Gregorian calendar counted in 400-year eras of 146 097 days,
   * each starting on 1 March so that the leap day is the last day of its year.
   * Day 0 is 1 January 1970, which is day 719 468 counted from 1 March of year 0.
   */
  const DaysPerEra := 146097

  /** The (year, month) of a day number. */
  function MonthOf(d: Day): Month
  {
    var z := d + 719468;
    EraMonth(z % DaysPerEra, z / DaysPerEra)
  }

  /** 2000-02-29, a leap day of a year divisible by 400, falls in February 2000. */
  lemma MonthOfLeapDay()
    ensures MonthOf(11016) == Month(2000, 2)
  {
    assert 11016 + 719468 == 4 * DaysPerEra + (DaysPerEra - 1);
    LastDayOfEra();
  }

  /** Years completed since the start of the era by day `doe` of the era. */
  function YearOfEra(doe: int): int
  {
    (doe - doe / 1460 + doe / 36524 - doe / 146096) / 365
  }

  /** Days since 1 March of the year that holds day `doe` of the era. */
  function DayOfYear(doe: int): int
  {
    var y := YearOfEra(doe);
    doe - (365 * y + y / 4 - y / 100)
  }

  /** Months since March: 0 for March, 11 for February. */
  function MarchMonth(doy: int): int
  {
    (5 * doy + 2) / 153
  }

  function CivilMonth(mp: int): int
  {
    if mp < 10 then mp + 3 else mp - 9
  }

  /** January and February belong to the calendar year after the one their March began. */
  function EraMonth(doe: int, era: int): Month
  {
    var m := CivilMonth(MarchMonth(DayOfYear(doe)));
    Month(YearOfEra(doe) + era * 400 + (if m <= 2 then 1 else 0), m)
  }

  lemma DayOfYearLow(doe: int)
    requires 0 <= doe < DaysPerEra
    ensures 0 <= DayOfYear(doe)
  {
    var y := YearOfEra(doe);
    var a, b, e := doe / 1460, doe / 36524, doe / 146096;
    assert y <= doe / 365;
    assert y / 4 <= a;
    assert 36500 * (b - e) <= doe - a + b - e;
    assert 100 * (b - e) <= y;
  }

  lemma DayOfYearHigh(doe: int)
    requires 0 <= doe < DaysPerEra
    ensures DayOfYear(doe) <= 365
  {
    var y := YearOfEra(doe);
    YearWithinEra(doe, doe / 1460, doe / 36524, doe / 146096, y, y / 4, y / 100);
  }

  /** The leap-day count of an era never runs ahead of the year count. */
  lemma YearWithinEra(doe: int, a: int, b: int, e: int, y: int, p: int, c: int)
    requires 0 <= doe < DaysPerEra
    requires 1460 * a <= doe < 1460 * a + 1460
    requires 36524 * b <= doe < 36524 * b + 36524
    requires 146096 * e <= doe < 146096 * e + 146096
    requires 365 * y <= doe - a + b - e < 365 * y + 365
    requires 4 * p <= y < 4 * p + 4
    requires 100 * c <= y < 100 * c + 100
    ensures doe - (365 * y + p - c) <= 365
  {
  }

  lemma YearOfEraStep(doe: int)
    requires 0 <= doe < DaysPerEra - 1
    ensures YearOfEra(doe) <= YearOfEra(doe + 1) <= YearOfEra(doe) + 1
  {
    var n0 := doe - doe / 1460 + doe / 36524 - doe / 146096;
    var n1 := (doe + 1) - (doe + 1) / 1460 + (doe + 1) / 36524 - (doe + 1) / 146096;
    assert doe / 1460 <= (doe + 1) / 1460 <= doe / 1460 + 1;
    assert doe / 36524 <= (doe + 1) / 36524 <= doe / 36524 + 1;
    if doe + 1 < 146096 {
      assert n0 <= n1 <= n0 + 2;
    } else {
      assert n1 == n0 + 1;
    }
    assert n0 / 365 <= n1 / 365 <= n0 / 365 + 1;
  }

  lemma DayOfYearStep(doe: int)
    requires 0 <= doe < DaysPerEra - 1 && YearOfEra(doe) == YearOfEra(doe + 1)
    ensures DayOfYear(doe + 1) == DayOfYear(doe) + 1
  {
  }

  lemma MarchMonthRange(doy: int)
    requires 0 <= doy <= 365
    ensures 0 <= MarchMonth(doy) <= 11
  {
  }

  lemma MarchMonthStep(doy: int)
    requires 0 <= doy
    ensures MarchMonth(doy) <= MarchMonth(doy + 1)
  {
  }

  lemma EraMonthRange(doe: int, era: int)
    requires 0 <= doe < DaysPerEra
    ensures 1 <= EraMonth(doe, era).month <= 12
  {
    DayOfYearLow(doe);
    DayOfYearHigh(doe);
    MarchMonthRange(DayOfYear(doe));
  }

  /** Every day falls in one of the twelve months. */
  lemma MonthInRange(d: Day)
    ensures 1 <= MonthOf(d).month <= 12
  {
    var z := d + 719468;
    EraMonthRange(z % DaysPerEra, z / DaysPerEra);
  }

  lemma EraMonthSameYear(doe: int, era: int)
    requires 0 <= doe < DaysPerEra - 1 && YearOfEra(doe) == YearOfEra(doe + 1)
    ensures MonthLeq(EraMonth(doe, era), EraMonth(doe + 1, era))
  {
    DayOfYearStep(doe);
    DayOfYearLow(doe);
    DayOfYearHigh(doe + 1);
    MarchMonthStep(DayOfYear(doe));
    MarchMonthRange(DayOfYear(doe + 1));
  }

  lemma EraMonthNextYear(doe: int, era: int)
    requires 0 <= doe < DaysPerEra - 1 && YearOfEra(doe) + 1 == YearOfEra(doe + 1)
    ensures MonthLeq(EraMonth(doe, era), EraMonth(doe + 1, era))
  {
    DayOfYearLow(doe);
    DayOfYearHigh(doe);
    MarchMonthRange(DayOfYear(doe));
  }

  lemma EraMonthStep(doe: int, era: int)
    requires 0 <= doe < DaysPerEra - 1
    ensures MonthLeq(EraMonth(doe, era), EraMonth(doe + 1, era))
  {
    YearOfEraStep(doe);
    if YearOfEra(doe) == YearOfEra(doe + 1) {
      EraMonthSameYear(doe, era);
    } else {
      EraMonthNextYear(doe, era);
    }
  }

  lemma LastDayOfEra()
    ensures YearOfEra(DaysPerEra - 1) == 399
    ensures DayOfYear(DaysPerEra - 1) == 365
  {
  }

  /** The last day of an era (29 February) is followed by 1 March of the next era. */
  lemma EraMonthWrap(era: int)
    ensures MonthLeq(EraMonth(DaysPerEra - 1, era), EraMonth(0, era + 1))
  {
    LastDayOfEra();
  }

  lemma MonthOfStepWithin(d: Day)
    requires (d + 719468) % DaysPerEra < DaysPerEra - 1
    ensures MonthLeq(MonthOf(d), MonthOf(d + 1))
  {
    var z := d + 719468;
    assert (z + 1) % DaysPerEra == z % DaysPerEra + 1 && (z + 1) / DaysPerEra == z / DaysPerEra;
    EraMonthStep(z % DaysPerEra, z / DaysPerEra);
  }

  lemma MonthOfStepWrap(d: Day)
    requires (d + 719468) % DaysPerEra == DaysPerEra - 1
    ensures MonthLeq(MonthOf(d), MonthOf(d + 1))
  {
    var z := d + 719468;
    assert (z + 1) % DaysPerEra == 0 && (z + 1) / DaysPerEra == z / DaysPerEra + 1;
    EraMonthWrap(z / DaysPerEra);
  }

  /** The next day is in the same month or a later one. */
  lemma MonthOfStep(d: Day)
    ensures MonthLeq(MonthOf(d), MonthOf(d + 1))
  {
    if (d + 719468) % DaysPerEra < DaysPerEra - 1 {
      MonthOfStepWithin(d);
    } else {
      MonthOfStepWrap(d);
    }
  }

  lemma MonthLeqTransitive(a: Month, b: Month, c: Month)
    requires MonthLeq(a, b) && MonthLeq(b, c)
    ensures MonthLeq(a, c)
  {
  }

  /** Later days never fall in earlier months, so grouping sorted dates by month keeps the groups in order. */
  lemma {:induction false} MonthOfMonotone(d1: Day, d2: Day)
    requires d1 <= d2
    ensures MonthLeq(MonthOf(d1), MonthOf(d2))
    decreases d2 - d1
  {
    if d1 < d2 {
      MonthOfStep(d1);
      MonthOfMonotone(d1 + 1, d2);
      MonthLeqTransitive(MonthOf(d1), MonthOf(d1 + 1), MonthOf(d2));
    }
  }
}
