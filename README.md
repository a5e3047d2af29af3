# Finance tracker core, modelled in Dafny

This project models the core of a Django personal-finance tracker. Each user
owns categories, expenses and incomes, and has a profile that holds their
currency symbol and dark-mode preference. The model covers the following
behaviour:

- **Catalog seeding.** New users get a catalog of twelve default categories,
  added with one get-or-create per entry.
- **Financial summary.** Total expenses, total income and the balance over an
  optional inclusive date range.
- **Dashboard.** The summary, the five newest rows of each kind, and a monthly
  expense series over the last 180 days. Income is reconciled to the months of
  the expense series. The dashboard also shows the eight heaviest category
  groups of the range's expenses.
- **Expense list.** Its search and filter predicates and the total of what it
  lists. The income list total is covered too.
- **Forms and their validation.** Amount, title, category choices, category
  fields, the filter form, the date-range form and the registration email.
- **Create, update and delete views.** These are owner-scoped: a key the
  requesting user does not own is "not found".
- **Dark mode.** The toggle, and the theme variables every page receives.
- **Delete rules.** `SET_NULL` from rows to their category and `CASCADE` from
  a user to everything they own.

The model uses these representations:

- Amounts are integers in cents. A `DecimalField(max_digits=12,
  decimal_places=2)` holds exactly the cent counts below 10^12 in absolute
  value.
- Dates are day numbers.
- Months are `Month(year, month)` values, computed from day numbers by the
  civil-from-days algorithm.
- Strings are sequences of characters.
- "Today" and "now" are parameters.

Query operators are modelled as functions on sequences:

- `.filter` is `Sequences.Select`.
- `.order_by` is a stable insertion `Sort` by a total preorder.
- `[:n]` is `Take`.
- `aggregate(Sum) or 0` is `Models.Total`.
- `.values(key).annotate(total=Sum('amount'))` is `Grouping.GroupBy`. Its
  meaning is stated once, as `Grouping.Summarizes`: one bucket per key that
  occurs, and each bucket holds the sum of its rows.

The database is the class `Store.Database`. Each table is a sequence field,
and one key counter serves every table. Its `Valid()` invariant covers these
integrity rules:

- primary keys are unique;
- keys are below the counter;
- every row, category and profile belongs to an existing user;
- a user has at most one profile;
- amounts are positive and fit the column;
- a row's category belongs to the row's owner.

Every state-changing method except the raw table setter `SetRows` keeps `Valid()`; the methods that call `SetRows` re-establish it. Every state-changing method states the new contents of every table it may change. The profile table is stated per user, through `FindProfile`, since its order is not observable.

The modules, in dependency order:

- `Wrappers`
- `Sequences`
- `Text`: stripping, ASCII case folding and `icontains`.
- `Models`
- `Forms`
- `Summary`
- `Grouping`
- `ExpenseList`
- `Dashboard`
- `Seeder`
- `Theme`
- `Store`

Where the code may surprise a reader, the model follows it:

- **Inverted date range.** A dashboard date range whose start is after its end
  is not rejected. `get_financial_summary` applies both bounds, the query
  selects nothing, and both totals are zero (`Summary.InvertedRangeIsEmpty`).
- **Invalid expense filter.** An expense filter form that does not validate
  raises nothing. The list silently applies no predicates at all
  (`ExpenseList.InvalidFilterListsEverything`).
- **Chart months.** The months of the dashboard chart are those of the
  expense series alone. Income in a month with no expense in the window is
  not shown. The label for such a month never exists, so its income is never
  looked up (`Dashboard.ReconcileIncome`).
- **Renamed default category.** A renamed default category is not restored by
  seeding. The seeder looks up by (user, name), so it creates a new category
  under the catalog name beside the renamed one (`Seeder.SeedAppends`).

## Model

| member | source | states |
|---|---|---|
| Models.PictureUrl | expenses/models.py:28-31 | No URL exactly when the profile has no picture file (none, or an empty file name); otherwise the media URL followed by the file name as the file storage quotes it |
| Models.PictureUrlNamesTheFile | expenses/models.py:30 | After the media URL, the picture URL unquotes to the stored name's UTF-8 bytes, so the quoting loses nothing |
| Models.NewCategory | expenses/models.py:43-48 | A category given only its owner and name is an expense category with icon `bi-tag`, colour `#6c757d` and no default mark |
| Models.FindCategory | expenses/views.py:240 | The left join from an expense to its category: a found category has the requested key; nothing is found only when no category has it |
| Models.TotalPermutation | expenses/views.py:76-77 | A sum does not depend on the order of the rows |
| Models.TotalSplit | expenses/views.py:76-77 | Rows passing a filter and rows failing it add up to the whole total |
| Models.Listed | expenses/models.py:78-79 | Default ordering of expenses and incomes: a permutation of the rows, newer dates first, same-day rows newest created first |
| Models.NameOrderIsTotalPreorder | expenses/models.py:52 | Ordering categories by name is total and transitive |
| Models.ListedByName | expenses/models.py:50-52 | Default ordering of categories: a permutation, in name order |
| Models.MonthOfLeapDay | expenses/views.py:224 | `TruncMonth` on a concrete date: day 11016 (29 February 2000) is in February 2000 |
| Models.MonthInRange | expenses/views.py:224 | `TruncMonth` of any day is a month numbered 1 to 12 |
| Models.MonthOfMonotone | expenses/views.py:224-227 | `TruncMonth` preserves the order of dates: a later day never falls in an earlier month, so ordering groups by month agrees with ordering their dates |
| Text.Strip | expenses/forms.py:160-163 | Form text is stripped: the result is the input less leading and trailing whitespace, and begins and ends with a non-space |
| Text.Quote | expenses/models.py:30 | The storage's URL quoting yields only URL-safe characters, `%` and upper-case hex digits |
| Text.QuoteRoundTrip | expenses/models.py:30 | Unquoting a quoted name gives back the name's UTF-8 bytes |
| Text.QuoteKeepsSafe | expenses/models.py:30 | A name made of URL-safe characters only is left as it is |
| Text.QuoteAccent | expenses/models.py:30 | An accented letter becomes its two UTF-8 bytes, percent-encoded: "José" gives "Jos%C3%A9" |
| Text.Lower | expenses/views.py:295 | Case folding maps each character and keeps the length |
| Text.ContainsSound | expenses/views.py:294-297 | The substring test succeeds only when the needle occurs at some position |
| Text.ContainsComplete | expenses/views.py:294-297 | The substring test succeeds whenever the needle occurs at some position |
| Forms.CleanAmount | expenses/forms.py:115-119 | `clean_amount`: an error exactly when an amount is present and not above zero; otherwise the amount unchanged |
| Forms.AmountErrors | expenses/models.py:64 | The amount field is valid exactly when an amount is given, is positive and fits 12 digits with 2 decimals |
| Forms.CategoryChoices | expenses/forms.py:104-113 | With a user: exactly that user's categories whose type is the form's kind or "both"; without one: every category |
| Forms.FilterCategoryChoices | expenses/forms.py:187-191 | No choices without a user; with one, exactly that user's categories of any type |
| Forms.CleanTransactionForm | expenses/forms.py:88-119 | Valid exactly when the stripped title is non-blank, at most 200 characters long and free of NUL characters, the amount is valid, the category is absent or a choice, a date is given, and the description has no NUL character; the cleaned values are the stripped text and the given fields |
| Forms.CleanCategoryForm | expenses/forms.py:73-83 | Valid exactly when name, icon and colour are non-blank after stripping, within 100, 50 and 7 characters and free of NUL characters, and a type is chosen; the cleaned values are the stripped ones |
| Forms.CleanFilter | expenses/forms.py:158-191 | The filter form is invalid exactly when an input is malformed, the search holds a NUL character, or the category is not one of the user's; a valid one yields the stripped search, the given category and dates, and each decimal amount bound converted to cents |
| Forms.BoundsInCents | expenses/views.py:304-307 | An amount in cents is at least (at most) the converted bound exactly when its value in currency units is at least (at most) the decimal bound, sub-cent bounds included |
| Forms.CleanDateRange | expenses/views.py:207-212 | No bounds unless the dashboard form is bound and valid; otherwise the submitted bounds |
| Forms.CleanEmail | expenses/forms.py:31-35 | `clean_email`: an error exactly when some user already has that email; otherwise the email unchanged |
| Forms.CleanRegistrationEmail | expenses/forms.py:15-35 | The registration email is accepted exactly when it is non-blank after stripping and no user has the stripped value |
| Summary.RangeQueryIsWithin | expenses/views.py:66-74 | The chained filters select exactly the user's rows inside the inclusive range, in store order; an absent bound constrains nothing |
| Summary.FinancialSummaryOf | expenses/views.py:64-86 | Each total is the sum of the user's rows in the range, and the balance is income minus expenses |
| Summary.SummaryOfNothing | expenses/views.py:76-77 | With no matching rows both totals and the balance are exactly 0 |
| Summary.InvertedRangeIsEmpty | expenses/views.py:69-74 | A start after the end is not an error: the summary is all zeros |
| Summary.SummaryIgnoresOtherUsers | expenses/views.py:66-67 | Adding other users' rows does not change a user's summary |
| Summary.RangeTotalsAdd | expenses/views.py:69-74 | Two adjacent inclusive ranges add up to the range that spans both |
| Summary.IncomeListTotal | expenses/views.py:384-387 | The income list total is the income total of an unbounded summary |
| ExpenseList.FilterQueryIsConjunction | expenses/views.py:288-308 | The chain of conditional filters selects exactly the user's rows that satisfy every supplied predicate (all of them when the form is invalid) |
| ExpenseList.ListExpenses | expenses/views.py:288-314 | A row is listed exactly when it is the user's and passes the filter; the list is a permutation of that selection in listing order; its total is the sum of that selection |
| ExpenseList.ListedWithinDecimalBounds | expenses/views.py:288-308 | With a valid filter form, a row is listed exactly when it is the user's, passes the other supplied predicates, and its amount lies within the submitted decimal bounds |
| ExpenseList.InvalidFilterListsEverything | expenses/views.py:288-292 | An invalid filter form (malformed input, a NUL in the search, or a category that is not the user's) lists all the user's expenses and totals them all |
| ExpenseList.FilterIsIntersection | expenses/views.py:292-307 | Filtering by the fields of two filters together lists exactly what both list on their own |
| Grouping.AddTo | expenses/views.py:225-226 | Accumulating a row adds its amount to the bucket of its key, or appends a new bucket; the set of keys grows by that key only and stays duplicate-free |
| Grouping.GroupBy | expenses/views.py:222-226 | Grouping never yields two buckets for one key |
| Grouping.GroupByCovers | expenses/views.py:222-226 | A bucket exists exactly for each key some row has |
| Grouping.GroupByTotals | expenses/views.py:222-226 | Every bucket holds the sum of the amounts of the rows with its key |
| Grouping.GroupBySummarizes | expenses/views.py:222-226 | Grouping yields a correct summary of the rows |
| Grouping.SummarizesPermutation | expenses/views.py:227 | Reordering the groups keeps them a correct summary |
| Grouping.LookupFinds | expenses/views.py:250-253 | `next(..., 0)`: 0 when no bucket has the key, otherwise the total of a bucket with that key |
| Grouping.LookupSummarizes | expenses/views.py:249-254 | Looking a month up in a correct summary yields the total of that month's rows, 0 when it has none |
| Dashboard.Recent | expenses/views.py:217-218 | At most five of the user's rows, each taken at most as often as it occurs among them, in listing order; a row of the user left out means five are shown and all are listed before it |
| Dashboard.MonthOrderIsTotalPreorder | expenses/views.py:227 | Month order is total and transitive |
| Dashboard.MonthlyTotals | expenses/views.py:221-235 | The monthly series correctly summarizes the user's rows dated no earlier than 180 days before today, in strictly ascending month order |
| Dashboard.Labels | expenses/views.py:246 | The chart labels are the months of the expense series, in order |
| Dashboard.Totals | expenses/views.py:247 | The expense data are the totals of the expense series, in order |
| Dashboard.ReconcileIncome | expenses/views.py:248-254 | One income figure per label: the first income bucket of that month, or 0 |
| Dashboard.ReconciledIncomeIsMonthTotal | expenses/views.py:229-254 | The reconciled income figure for a month is the user's income total for that month in the window |
| Dashboard.TopCategories | expenses/views.py:238-243 | At most eight distinct (name, colour) groups of the range's expenses, heaviest first, each with its correct total and for a key that occurs; an occurring group left out means eight are shown, none lighter than it |
| Dashboard.OrElse | expenses/views.py:256 | `value or fallback`: the value unless it is NULL or empty |
| Dashboard.PieSlices | expenses/views.py:256-258 | One slice per group with its total; the name is "Uncategorized" and the colour `#6c757d` exactly when the group's own is NULL, empty or already that fallback; otherwise the group's own name and colour are shown |
| Dashboard.DashboardView | expenses/views.py:206-276 | The page's summary, recent rows, chart series (equal lengths, each income figure the month's income total) and pie slices, each tied to its definition |
| Seeder.DefaultCatalog | expenses/views.py:36-51 | The catalog has twelve distinctly named entries: eight expense categories, then four income categories |
| Seeder.SeedAll | expenses/views.py:54-61 | Seeding a fresh user creates one default category per entry, in order, with consecutive keys, owned by the user and marked default |
| Seeder.SeedCategoryOverridesDefaults | expenses/views.py:57-61 | A seeded category is the model defaults with the catalog entry's type, icon and colour and the default mark |
| Seeder.SeedAppends | expenses/views.py:56-61 | Seeding only appends: existing categories are kept, each new one is a default of the user made from some entry, and the key counter advances by the number created |
| Seeder.SeedSucceeds | expenses/views.py:57-61 | Seeding succeeds exactly when no catalog name already occurs twice or more among the user's categories |
| Seeder.SeedCounts | expenses/views.py:56-61 | After successful seeding a name's count grows by one exactly when it was missing and is in the catalog |
| Seeder.SeedCompletes | expenses/views.py:56-61 | After successful seeding the user has every catalog name exactly once |
| Seeder.SeedNothingToDo | expenses/views.py:56-61 | When every name is present once, seeding changes nothing |
| Seeder.SeedIdempotent | expenses/views.py:54-61 | Seeding twice is seeding once |
| Seeder.SeedFresh | expenses/views.py:54-61 | A user with none of the names receives the whole catalog, in catalog order |
| Theme.ThemeContext | expenses/context_processors.py:7-23 | Anonymous requests, and users without a profile, get dark mode off and "$"; otherwise the profile's dark mode and currency |
| Theme.NewProfileLooksAnonymous | expenses/context_processors.py:9-16 | A profile at its defaults gives the same theme as no profile |
| Store.ReplaceRow | expenses/views.py:348-352 | Saving the edit form rewrites the row with that key and no other |
| Store.DeleteRemovesOne | expenses/views.py:361-363 | Deleting by key removes exactly the one row that has it |
| Store.Detach | expenses/models.py:65-71 | `SET_NULL`: rows pointing at the deleted category lose their category and nothing else; the rest are unchanged |
| Store.DetachKeepsTotals | expenses/models.py:65-71 | Detaching a category does not change any total that ignores categories |
| Store.DeleteCategoryKeepsSummary | expenses/views.py:498-501 | Deleting a category leaves every user's financial summary as it was |
| Store.AddedRowCounts | expenses/views.py:325-330 | A new row adds its amount to its owner's totals exactly for ranges containing its date |
| Store.DeletedRowCounts | expenses/views.py:360-363 | Deleting a row takes its amount out of its owner's totals exactly for ranges containing its date |
| Store.Recategorized | expenses/views.py:486-490 | Saving the category form changes the name, type, icon and colour of that category and nothing else, keeping its key and owner |
| Store.CategoryList | expenses/views.py:451-452 | The category list is a permutation of the user's categories, in name order |
| Store.FindProfile | expenses/models.py:14 | The profile found belongs to the user; none is found only when the user has none |
| Store.Database.constructor | expenses/models.py:12-113 | An empty database satisfies every integrity rule |
| Store.Database.CreateDefaultCategories | expenses/views.py:54-61 | The loop over the catalog leaves exactly the categories, key counter and outcome of `Seeder.Seed`, keeps integrity, and changes no other table |
| Store.Database.Register | expenses/views.py:116-122 | A rejected email changes nothing; otherwise the user (with stripped username and email) under the next key, an all-default profile and the twelve default categories are added, and the key counter moves past all thirteen keys |
| Store.Database.Enroll | expenses/views.py:117-122 | Saving the user, creating its profile and seeding: the user under the next key, an all-default profile, the twelve default categories on the following keys, and no change to the expense or income tables |
| Store.Database.SeedNewUser | expenses/views.py:54-61 | For a user who owns no category yet, the seeding loop appends exactly the whole catalog, in order, under fresh keys |
| Store.Database.InsertCategory | expenses/views.py:57-61 | The create half of `get_or_create`: the category is appended under the next key and the other tables stay |
| Store.Database.CreateTransaction | expenses/views.py:325-330 | An invalid form changes nothing and reports its errors; a valid one appends a row owned by the requester under the next key, with both timestamps now, and the other tables stay |
| Store.Database.UpdateTransaction | expenses/views.py:348-352 | Not found unless the requester owns a row with that key; an invalid form changes nothing; a valid one rewrites that row only |
| Store.Database.DeleteTransaction | expenses/views.py:360-363 | Not found unless the requester owns a row with that key; otherwise exactly that row is removed |
| Store.Database.CreateCategory | expenses/views.py:463-468 | An invalid form changes nothing; a valid one appends a category of the requester under the next key: the model defaults, not marked default, with the form's name, type, icon and colour |
| Store.Database.UpdateCategory | expenses/views.py:486-490 | Not found unless the requester owns that category; a valid form rewrites its four fields only |
| Store.Database.DeleteCategory | expenses/views.py:498-501 | Not found unless the requester owns that category; otherwise it is removed and its rows are kept without a category |
| Store.Database.DeleteUser | expenses/models.py:74 | `CASCADE`: the user's profile, categories, expenses and incomes go; nobody else's change |
| Store.Database.ToggleDarkMode | expenses/views.py:191-197 | The user's profile becomes the old one with dark mode flipped, or a new all-default profile in dark mode when there was none; the returned value is what the user's pages now show; no other user's profile changes |

The create, update and delete rows cite the expense views. The income views
(`expenses/views.py:398-440`) are the same code with the income table and
income category choices, and the same members model them through their
`TransactionKind` argument.

## Left out

- The CSV export views: they only write files.
- Rendering, messages, redirects, AJAX responses and `json.dumps`/`float` of
  the chart data: presentation only.
- Chart labels are `Month` values rather than `'%b %Y'` strings. The source
  matches an income month to a label by comparing the formatted strings. That
  format is one-to-one on months, so the model compares months instead.
- Pagination of the lists: it slices the listed sequence for display and
  changes neither the selection nor the total.
- The landing, login and logout views and the error handlers: authentication
  and sessions belong to the framework.
- The profile view and its two forms: they upload images and edit user
  fields.
- `__str__`, the admin and the URL configuration.
- The management command that seeds demo data.
- Forms.CleanRegistrationEmail: username uniqueness, password validation and
  email syntax come from the framework's registration form and are not
  modelled; any non-blank email not in use is accepted.
- Dashboard.TopCategories: it does not fix the order of groups whose totals
  are equal. That order is chosen by the database.
- Store.Database: creation and update timestamps are parameters. Keys come
  from one counter shared by all tables, where the database has one sequence
  per table; only their freshness is modelled.
- Concurrency and transactions: two requests never interleave in the model.
- Store.Database.Register: a seeding failure cannot happen for a new user,
  because the user has no categories yet. The method still runs the seeding
  loop and proves the catalog was added.
- Search uses `icontains` with ASCII case folding only. Unicode case folding
  depends on the database.
- Text.NameLeq: category names are ordered by code point, as SQLite's default
  binary collation does. Other databases' collations are not modelled.
- Store.Database.Register: of the username, only the stripping the
  framework's form applies is modelled. Its required check, length limit,
  allowed characters, uniqueness and Unicode normalization are not.
- Models.PictureUrl: the media URL and the quoted name are joined by
  concatenation. `urljoin` gives the same for a media URL ending in `/` and a
  stored name without a leading slash or dot segments, which is what the
  storage produces.
- Forms.CleanFilter: amount bounds are compared exactly, as decimal numbers.
  Depending on the framework version and the database, a bound may first be
  rounded to two places or compared in floating point. That is not modelled.
