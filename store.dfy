/**
 * The database the views read and write, as one object whose tables are
 * sequences: users, their profiles, categories, and the expense and income
 * tables. The methods are the state-changing views of expenses/views.py
 * (registration, the owner-scoped create, update and delete views, the
 * dark-mode toggle) and the on-delete rules of expenses/models.py.
 */
module Store {
  import opened Wrappers
  import opened Sequences
  import opened Models
  import opened Forms
  import opened Seeder
  import opened Theme
  import opened Summary
  import Text

  // ─── Integrity of the tables ───────────────────────────────────────────────

  function UserKey(): User -> nat { (u: User) => u.id }
  function ProfileKey(): UserProfile -> UserId { (p: UserProfile) => p.user }
  function CategoryKey(): Category -> nat { (c: Category) => c.id }
  function RowKey(): Transaction -> nat { (t: Transaction) => t.id }

  predicate IsUser(users: seq<User>, id: UserId)
  {
    exists u :: u in users && u.id == id
  }

  /** A row's category, when it has one, is a category of the row's owner. */
  predicate RefersToOwn(cats: seq<Category>, t: Transaction)
  {
    t.category.None? || exists c :: c in cats && c.id == t.category.value && c.user == t.user
  }

  predicate UsersValid(users: seq<User>, nextId: nat)
  {
    Injective(users, UserKey()) && forall u :: u in users ==> u.id < nextId
  }

  /** `OneToOneField(User)`: at most one profile per user. */
  predicate ProfilesValid(users: seq<User>, profiles: seq<UserProfile>)
  {
    Injective(profiles, ProfileKey()) && forall p :: p in profiles ==> IsUser(users, p.user)
  }

  predicate CategoriesValid(users: seq<User>, cats: seq<Category>, nextId: nat)
  {
    Injective(cats, CategoryKey()) && forall c :: c in cats ==> c.id < nextId && IsUser(users, c.user)
  }

  /** An expense or income table: keyed rows of existing users, with amounts the forms accept. */
  predicate RowsValid(users: seq<User>, cats: seq<Category>, rows: seq<Transaction>, nextId: nat)
  {
    && Injective(rows, RowKey())
    && forall t :: t in rows ==>
         t.id < nextId && IsUser(users, t.user) && 0 < t.amount < AmountBound && RefersToOwn(cats, t)
  }

  // ─── Row operations ────────────────────────────────────────────────────────

  /** The row a valid ExpenseForm / IncomeForm saves for `user`. */
  function NewRow(id: nat, user: UserId, v: CleanedTransaction, now: Timestamp): Transaction
  {
    Transaction(id, user, v.title, v.amount, v.category, v.date, Some(v.description), now, now)
  }

  /** `form.save()` on an existing row: the form's fields and `updated_at`; id, owner and `created_at` stay. */
  function Edited(t: Transaction, v: CleanedTransaction, now: Timestamp): Transaction
  {
    t.(title := v.title, amount := v.amount, category := v.category, date := v.date,
       description := Some(v.description), updatedAt := now)
  }

  /** `get_object_or_404(Model, pk=pk, user=user)` finds a row. */
  predicate OwnsRow(rows: seq<Transaction>, user: UserId, pk: nat)
  {
    exists t :: t in rows && t.id == pk && t.user == user
  }

  /** `get_object_or_404(Category, pk=pk, user=user)` finds a category. */
  predicate OwnsCategory(cats: seq<Category>, user: UserId, pk: nat)
  {
    exists c :: c in cats && c.id == pk && c.user == user
  }

  function ReplaceRow(rows: seq<Transaction>, pk: nat, v: CleanedTransaction, now: Timestamp): (r: seq<Transaction>)
    ensures |r| == |rows|
    ensures forall i :: 0 <= i < |rows| ==> r[i] == if rows[i].id == pk then Edited(rows[i], v, now) else rows[i]
  {
    seq(|rows|, i requires 0 <= i < |rows| => if rows[i].id == pk then Edited(rows[i], v, now) else rows[i])
  }

  function Without(pk: nat): Transaction -> bool
  {
    (t: Transaction) => t.id != pk
  }

  /** Under a primary key, two rows with the same key are the same row. */
  lemma SameKeySameRow(rows: seq<Transaction>, x: Transaction, t: Transaction)
    requires Injective(rows, RowKey()) && x in rows && t in rows && x.id == t.id
    ensures x == t
  {
    var i :| 0 <= i < |rows| && rows[i] == x;
    var j :| 0 <= j < |rows| && rows[j] == t;
    assert RowKey()(rows[i]) == RowKey()(rows[j]);
  }

  /** Deleting by primary key removes exactly the one row that has it. */
  lemma DeleteRemovesOne(rows: seq<Transaction>, t: Transaction)
    requires Injective(rows, RowKey()) && t in rows
    ensures multiset(Select(rows, Without(t.id))) == multiset(rows) - multiset{t}
    ensures |Select(rows, Without(t.id))| == |rows| - 1
  {
    forall x ensures multiset(Select(rows, Without(t.id)))[x] == (multiset(rows) - multiset{t})[x] {
      SelectMultiplicity(rows, Without(t.id), x);
      InjectiveOnce(rows, RowKey(), x);
      if x in rows && x.id == t.id {
        SameKeySameRow(rows, x, t);
      }
    }
    assert multiset(Select(rows, Without(t.id))) == multiset(rows) - multiset{t};
    assert |multiset(Select(rows, Without(t.id)))| == |multiset(rows)| - 1;
  }

  /** `on_delete=SET_NULL`: rows that pointed at category `pk` lose their category and nothing else. */
  function Detach(rows: seq<Transaction>, pk: nat): (r: seq<Transaction>)
    ensures |r| == |rows|
    ensures forall i :: 0 <= i < |rows| ==>
              r[i] == if rows[i].category == Some(pk) then rows[i].(category := None) else rows[i]
  {
    seq(|rows|, i requires 0 <= i < |rows| => if rows[i].category == Some(pk) then rows[i].(category := None) else rows[i])
  }

  /** Deleting a category moves no money: every total that ignores categories is unchanged. */
  lemma {:induction false} DetachKeepsTotals(rows: seq<Transaction>, pk: nat, p: Transaction -> bool)
    requires forall t :: p(t) == p(t.(category := None))
    ensures Total(Select(Detach(rows, pk), p)) == Total(Select(rows, p))
  {
    if rows != [] {
      var d := Detach(rows, pk);
      assert d[1..] == Detach(rows[1..], pk);
      DetachKeepsTotals(rows[1..], pk, p);
      TotalSelectCons(rows, p);
      TotalSelectCons(d, p);
    }
  }

  /** `form.save()` on the category with key `pk`: its name, type, icon and colour change, nothing else does. */
  function Recategorized(cats: seq<Category>, pk: nat, v: CleanedCategory): (r: seq<Category>)
    ensures |r| == |cats|
    ensures forall i :: 0 <= i < |cats| ==> r[i].id == cats[i].id && r[i].user == cats[i].user
    ensures forall i :: 0 <= i < |cats| ==>
              r[i] == if cats[i].id == pk then cats[i].(name := v.name, kind := v.kind, icon := v.icon, color := v.color)
                      else cats[i]
  {
    seq(|cats|, i requires 0 <= i < |cats| =>
      if cats[i].id == pk then cats[i].(name := v.name, kind := v.kind, icon := v.icon, color := v.color) else cats[i])
  }

  /** Deleting a category leaves every user's financial summary as it was. */
  lemma DeleteCategoryKeepsSummary(expenses: seq<Transaction>, incomes: seq<Transaction>, pk: nat,
                                   user: UserId, range: DateRange)
    ensures FinancialSummaryOf(Detach(expenses, pk), Detach(incomes, pk), user, range)
         == FinancialSummaryOf(expenses, incomes, user, range)
  {
    DetachKeepsTotals(expenses, pk, Within(user, range));
    DetachKeepsTotals(incomes, pk, Within(user, range));
  }

  /** A row added for `user` counts in that user's totals exactly when its date is in the range. */
  lemma AddedRowCounts(rows: seq<Transaction>, t: Transaction, user: UserId, range: DateRange)
    ensures Total(Select(rows + [t], Within(user, range)))
         == Total(Select(rows, Within(user, range))) + (if t.user == user && InRange(t.date, range) then t.amount else 0)
  {
    SelectAppend(rows, [t], Within(user, range));
    assert Select([t], Within(user, range)) == (if Within(user, range)(t) then [t] else []) + Select([], Within(user, range));
    TotalAppend(Select(rows, Within(user, range)), Select([t], Within(user, range)));
  }

  /** Deleting a row takes its amount out of its owner's totals exactly when its date is in the range. */
  lemma DeletedRowCounts(rows: seq<Transaction>, t: Transaction, user: UserId, range: DateRange)
    requires Injective(rows, RowKey()) && t in rows
    ensures Total(Select(rows, Within(user, range)))
         == Total(Select(Select(rows, Without(t.id)), Within(user, range)))
            + (if t.user == user && InRange(t.date, range) then t.amount else 0)
  {
    var p := Within(user, range);
    var rest := Select(Select(rows, Without(t.id)), p);
    var mine := if p(t) then [t] else [];
    DeletedRowMultiset(rows, t, p);
    assert multiset(rest + mine) == multiset(rest) + multiset(mine);
    TotalPermutation(Select(rows, p), rest + mine);
    TotalAppend(rest, mine);
  }

  lemma DeletedRowMultiset(rows: seq<Transaction>, t: Transaction, p: Transaction -> bool)
    requires Injective(rows, RowKey()) && t in rows
    ensures multiset(Select(rows, p))
         == multiset(Select(Select(rows, Without(t.id)), p)) + multiset(if p(t) then [t] else [])
  {
    var rest := Select(rows, Without(t.id));
    forall x ensures multiset(Select(rows, p))[x]
                  == (multiset(Select(rest, p)) + multiset(if p(t) then [t] else []))[x]
    {
      DeletedRowMultiplicity(rows, t, p, x);
    }
  }

  /** One value's count in the filtered rows, before and after the deletion. */
  lemma DeletedRowMultiplicity(rows: seq<Transaction>, t: Transaction, p: Transaction -> bool, x: Transaction)
    requires Injective(rows, RowKey()) && t in rows
    ensures multiset(Select(rows, p))[x]
         == (multiset(Select(Select(rows, Without(t.id)), p)) + multiset(if p(t) then [t] else []))[x]
  {
    var rest := Select(rows, Without(t.id));
    DeleteRemovesOne(rows, t);
    SelectMultiplicity(rows, p, x);
    SelectMultiplicity(rest, p, x);
  }

  /** Every table keeps its integrity constraints against the others. */
  ghost predicate Consistent(users: seq<User>, profiles: seq<UserProfile>, categories: seq<Category>,
                             expenses: seq<Transaction>, incomes: seq<Transaction>, nextId: nat)
  {
    && UsersValid(users, nextId)
    && ProfilesValid(users, profiles)
    && CategoriesValid(users, categories, nextId)
    && RowsValid(users, categories, expenses, nextId)
    && RowsValid(users, categories, incomes, nextId)
  }

  /** What survives the cascade when `user` is deleted: everything not owned by them. */
  function OtherUser(user: UserId): User -> bool
  {
    (u: User) => u.id != user
  }

  function OtherProfile(user: UserId): UserProfile -> bool
  {
    (p: UserProfile) => p.user != user
  }

  function OtherCategory(user: UserId): Category -> bool
  {
    (c: Category) => c.user != user
  }

  function OtherRow(user: UserId): Transaction -> bool
  {
    (t: Transaction) => t.user != user
  }

  /** The user's categories in name order: `CategoryListView.get_queryset`. */
  function CategoryList(cats: seq<Category>, user: UserId): (r: seq<Category>)
    ensures multiset(r) == multiset(Select(cats, (c: Category) => c.user == user))
    ensures forall i, j :: 0 <= i < j < |r| ==> Text.NameLeq(r[i].name, r[j].name)
  {
    ListedByName(Select(cats, (c: Category) => c.user == user))
  }

  /** The profile a user has, if any. */
  function FindProfile(profiles: seq<UserProfile>, user: UserId): (r: Option<UserProfile>)
    ensures r.Some? ==> r.value in profiles && r.value.user == user
    ensures r.None? ==> forall p :: p in profiles ==> p.user != user
  {
    if profiles == [] then None
    else if profiles[0].user == user then Some(profiles[0])
    else FindProfile(profiles[1..], user)
  }

  datatype Outcome = Done | NotFound | Invalid(errors: seq<FormError>)

  // ─── The database ──────────────────────────────────────────────────────────

  class Database {
    var users: seq<User>
    var profiles: seq<UserProfile>
    var categories: seq<Category>
    var expenses: seq<Transaction>
    var incomes: seq<Transaction>
    /** The next primary key; one counter serves every table. */
    var nextId: nat

    ghost predicate Valid()
      reads this
    {
      Consistent(users, profiles, categories, expenses, incomes, nextId)
    }

    constructor()
      ensures Valid()
      ensures users == [] && profiles == [] && categories == [] && expenses == [] && incomes == []
    {
      users, profiles, categories, expenses, incomes := [], [], [], [], [];
      nextId := 1;
    }

    /** The table of a kind: `Expense.objects` or `Income.objects`. */
    function Rows(kind: TransactionKind): seq<Transaction>
      reads this
    {
      if kind == ExpenseKind then expenses else incomes
    }

    /** The theme variables a request by `user` (None: anonymous) gets. */
    function ThemeFor(user: Option<UserId>): ThemeVars
      reads this
    {
      ThemeContext(user.Some?, if user.Some? then FindProfile(profiles, user.value) else None)
    }

    // ─── Registration and seeding ────────────────────────────────────────────

    /**
     * `create_default_categories(user)`: one get-or-create per catalog entry,
     * in catalog order; `ok` is false when a lookup found the name twice or
     * more, which ends the loop.
     */
    method CreateDefaultCategories(user: UserId, now: Timestamp) returns (ok: bool)
      requires Valid() && IsUser(users, user)
      modifies this
      ensures Valid()
      ensures SeedResult(categories, nextId, ok) == Seed(old(categories), user, DefaultCategories, old(nextId), now)
      ensures users == old(users) && profiles == old(profiles) && expenses == old(expenses) && incomes == old(incomes)
    {
      ok := true;
      var i := 0;
      while i < |DefaultCategories|
        invariant 0 <= i <= |DefaultCategories|
        invariant Valid()
        invariant old(nextId) <= nextId
        invariant Seed(old(categories), user, DefaultCategories, old(nextId), now)
               == Seed(categories, user, DefaultCategories[i..], nextId, now)
        invariant users == old(users) && profiles == old(profiles) && expenses == old(expenses) && incomes == old(incomes)
      {
        var entry := DefaultCategories[i];
        assert DefaultCategories[i..][0] == entry && DefaultCategories[i..][1..] == DefaultCategories[i + 1..];
        var found := CountNamed(categories, user, entry.name);
        if found >= 2 {
          ok := false;
          return;
        }
        if found == 0 {
          InsertCategory(SeedCategory(nextId, user, entry, now));
        }
        i := i + 1;
      }
    }

    /** The create half of `get_or_create`: the category takes the next key. */
    method InsertCategory(c: Category)
      requires Valid() && c.id == nextId && IsUser(users, c.user)
      modifies this
      ensures Valid()
      ensures categories == old(categories) + [c] && nextId == old(nextId) + 1
      ensures users == old(users) && profiles == old(profiles) && expenses == old(expenses) && incomes == old(incomes)
    {
      AddCategoryKeepsValid(users, categories, expenses, incomes, nextId, c);
      categories := categories + [c];
      nextId := nextId + 1;
    }

    /** Inserts a user under the next key, with its profile. */
    method AddUser(u: User, p: UserProfile)
      requires Valid() && u.id == nextId && p.user == nextId
      modifies this
      ensures Valid() && IsUser(users, u.id)
      ensures forall c :: c in categories ==> c.user != u.id
      ensures users == old(users) + [u] && profiles == old(profiles) + [p] && nextId == old(nextId) + 1
      ensures categories == old(categories) && expenses == old(expenses) && incomes == old(incomes)
    {
      FreshKeyOwnsNothing(users, categories, nextId);
      NewUserKeepsValid(users, profiles, categories, expenses, incomes, nextId, u, p);
      users := users + [u];
      profiles := profiles + [p];
      nextId := nextId + 1;
      assert u in users;
    }

    /**
     * `RegisterView.post`: a valid email creates the user, an all-default
     * profile and the twelve default categories.
     */
    method Register(username: string, email: string, now: Timestamp) returns (r: Result<UserId, FormError>)
      requires Valid()
      modifies this
      ensures Valid()
      ensures r.Err? <==> CleanRegistrationEmail(old(users), email).Err?
      ensures r.Err? ==> r.error == CleanRegistrationEmail(old(users), email).error
      ensures r.Err? ==> unchanged(this)
      ensures r.Ok? ==> r.value == old(nextId)
      ensures r.Ok? ==> users == old(users) + [User(r.value, Text.Strip(username), Text.Strip(email))]
      ensures r.Ok? ==> profiles == old(profiles) + [NewProfile(r.value, now)]
      ensures r.Ok? ==> categories == old(categories) + SeedAll(DefaultCategories, old(nextId), old(nextId) + 1, now)
      ensures r.Ok? ==> nextId == old(nextId) + 1 + |DefaultCategories|
      ensures r.Ok? ==> expenses == old(expenses) && incomes == old(incomes)
    {
      var cleaned := CleanRegistrationEmail(users, email);
      if cleaned.Err? {
        return Err(cleaned.error);
      }
      var id := Enroll(Text.Strip(username), cleaned.value, now);
      r := Ok(id);
    }

    /** Creates the user under the next key, with an all-default profile and the default categories. */
    method Enroll(username: string, email: string, now: Timestamp) returns (id: UserId)
      requires Valid()
      modifies this
      ensures Valid()
      ensures id == old(nextId)
      ensures users == old(users) + [User(id, username, email)]
      ensures profiles == old(profiles) + [NewProfile(id, now)]
      ensures categories == old(categories) + SeedAll(DefaultCategories, old(nextId), old(nextId) + 1, now)
      ensures nextId == old(nextId) + 1 + |DefaultCategories|
      ensures expenses == old(expenses) && incomes == old(incomes)
    {
      id := nextId;
      AddUser(User(id, username, email), NewProfile(id, now));
      SeedNewUser(id, now);
    }

    /** Seeding a user who owns no category yet adds the whole catalog under fresh keys. */
    method SeedNewUser(user: UserId, now: Timestamp)
      requires Valid() && IsUser(users, user)
      requires forall c :: c in categories ==> c.user != user
      modifies this
      ensures Valid()
      ensures categories == old(categories) + SeedAll(DefaultCategories, user, old(nextId), now)
      ensures nextId == old(nextId) + |DefaultCategories|
      ensures users == old(users) && profiles == old(profiles) && expenses == old(expenses) && incomes == old(incomes)
    {
      RegistrationSeeds(categories, user, nextId, now);
      var ok := CreateDefaultCategories(user, now);
    }

    // ─── Expenses and income ─────────────────────────────────────────────────

    /** Replaces one table and leaves every other field alone. */
    method SetRows(kind: TransactionKind, rows: seq<Transaction>)
      modifies this
      ensures Rows(kind) == rows
      ensures kind == ExpenseKind ==> incomes == old(incomes)
      ensures kind == IncomeKind ==> expenses == old(expenses)
      ensures users == old(users) && profiles == old(profiles) && categories == old(categories) && nextId == old(nextId)
    {
      if kind == ExpenseKind {
        expenses := rows;
      } else {
        incomes := rows;
      }
    }

    /** Inserts a row under the next key. */
    method AppendRow(kind: TransactionKind, t: Transaction)
      requires Valid() && t.id == nextId && IsUser(users, t.user) && 0 < t.amount < AmountBound && RefersToOwn(categories, t)
      modifies this
      ensures Valid()
      ensures Rows(kind) == old(Rows(kind)) + [t] && nextId == old(nextId) + 1
      ensures kind == ExpenseKind ==> incomes == old(incomes)
      ensures kind == IncomeKind ==> expenses == old(expenses)
      ensures users == old(users) && profiles == old(profiles) && categories == old(categories)
    {
      AddRowKeepsValid(users, categories, Rows(kind), nextId, t);
      SetRows(kind, Rows(kind) + [t]);
      nextId := nextId + 1;
    }

    /**
     * `ExpenseCreateView.post` / `IncomeCreateView.post`: the form is cleaned
     * against the user's categories of a matching type; a valid one appends
     * a row owned by the requesting user.
     */
    method CreateTransaction(kind: TransactionKind, user: UserId, form: TransactionForm, now: Timestamp)
      returns (r: Result<nat, seq<FormError>>)
      requires Valid() && IsUser(users, user)
      modifies this
      ensures Valid()
      ensures var cleaned := CleanTransactionForm(form, CategoryChoices(old(categories), Some(user), kind));
              && (cleaned.Err? ==> r == Err(cleaned.error) && unchanged(this))
              && (cleaned.Ok? ==> r == Ok(old(nextId)) && nextId == old(nextId) + 1
                                  && Rows(kind) == old(Rows(kind)) + [NewRow(old(nextId), user, cleaned.value, now)])
      ensures kind == ExpenseKind ==> incomes == old(incomes)
      ensures kind == IncomeKind ==> expenses == old(expenses)
      ensures users == old(users) && profiles == old(profiles) && categories == old(categories)
    {
      var choices := CategoryChoices(categories, Some(user), kind);
      var cleaned := CleanTransactionForm(form, choices);
      if cleaned.Err? {
        return Err(cleaned.error);
      }
      var row := NewRow(nextId, user, cleaned.value, now);
      ChosenCategoryIsOwn(categories, user, kind, cleaned.value.category, row);
      AppendRow(kind, row);
      r := Ok(row.id);
    }

    /**
     * `ExpenseUpdateView.post` / `IncomeUpdateView.post`: not found unless the
     * user owns a row with that key; otherwise a valid form rewrites that row
     * and no other.
     */
    method UpdateTransaction(kind: TransactionKind, user: UserId, pk: nat, form: TransactionForm, now: Timestamp)
      returns (r: Outcome)
      requires Valid() && IsUser(users, user)
      modifies this
      ensures Valid()
      ensures !OwnsRow(old(Rows(kind)), user, pk) ==> r == NotFound && unchanged(this)
      ensures OwnsRow(old(Rows(kind)), user, pk) ==>
                var cleaned := CleanTransactionForm(form, CategoryChoices(old(categories), Some(user), kind));
                && (cleaned.Err? ==> r == Invalid(cleaned.error) && unchanged(this))
                && (cleaned.Ok? ==> r == Done && Rows(kind) == ReplaceRow(old(Rows(kind)), pk, cleaned.value, now))
      ensures kind == ExpenseKind ==> incomes == old(incomes)
      ensures kind == IncomeKind ==> expenses == old(expenses)
      ensures users == old(users) && profiles == old(profiles) && categories == old(categories) && nextId == old(nextId)
    {
      if !OwnsRow(Rows(kind), user, pk) {
        return NotFound;
      }
      var cleaned := CleanTransactionForm(form, CategoryChoices(categories, Some(user), kind));
      if cleaned.Err? {
        return Invalid(cleaned.error);
      }
      ReplaceKeepsValid(users, categories, Rows(kind), nextId, user, pk, kind, cleaned.value, now);
      SetRows(kind, ReplaceRow(Rows(kind), pk, cleaned.value, now));
      r := Done;
    }

    /**
     * `ExpenseDeleteView.post` / `IncomeDeleteView.post`: not found unless the
     * user owns a row with that key; otherwise exactly that row goes.
     */
    method DeleteTransaction(kind: TransactionKind, user: UserId, pk: nat) returns (r: Outcome)
      requires Valid()
      modifies this
      ensures Valid()
      ensures !OwnsRow(old(Rows(kind)), user, pk) ==> r == NotFound && unchanged(this)
      ensures OwnsRow(old(Rows(kind)), user, pk) ==>
                && r == Done
                && Rows(kind) == Select(old(Rows(kind)), Without(pk))
                && |Rows(kind)| == |old(Rows(kind))| - 1
                && exists t :: t in old(Rows(kind)) && t.id == pk && t.user == user
                                && multiset(Rows(kind)) == multiset(old(Rows(kind))) - multiset{t}
      ensures kind == ExpenseKind ==> incomes == old(incomes)
      ensures kind == IncomeKind ==> expenses == old(expenses)
      ensures users == old(users) && profiles == old(profiles) && categories == old(categories) && nextId == old(nextId)
    {
      if !OwnsRow(Rows(kind), user, pk) {
        return NotFound;
      }
      var t :| t in Rows(kind) && t.id == pk && t.user == user;
      DeleteRemovesOne(Rows(kind), t);
      SelectRowsKeepsValid(users, categories, Rows(kind), nextId, Without(pk));
      SetRows(kind, Select(Rows(kind), Without(pk)));
      r := Done;
    }

    // ─── Categories ──────────────────────────────────────────────────────────

    /** Inserts a category under the next key. */
    method AppendCategory(c: Category)
      requires Valid() && c.id == nextId && IsUser(users, c.user)
      modifies this
      ensures Valid()
      ensures categories == old(categories) + [c] && nextId == old(nextId) + 1
      ensures users == old(users) && profiles == old(profiles) && expenses == old(expenses) && incomes == old(incomes)
    {
      AddCategoryKeepsValid(users, categories, expenses, incomes, nextId, c);
      categories := categories + [c];
      nextId := nextId + 1;
    }

    /** Rewrites categories in place, keeping every key and owner. */
    method SetCategories(updated: seq<Category>)
      requires Valid() && |updated| == |categories|
      requires forall i :: 0 <= i < |categories| ==> updated[i].id == categories[i].id && updated[i].user == categories[i].user
      modifies this
      ensures Valid()
      ensures categories == updated
      ensures users == old(users) && profiles == old(profiles) && expenses == old(expenses) && incomes == old(incomes)
      ensures nextId == old(nextId)
    {
      RecategorizeKeepsValid(users, categories, updated, expenses, incomes, nextId);
      categories := updated;
    }

    /** `CategoryCreateView.post`: a valid form appends a non-default category owned by the user. */
    method CreateCategory(user: UserId, form: CategoryForm, now: Timestamp) returns (r: Result<nat, seq<FormError>>)
      requires Valid() && IsUser(users, user)
      modifies this
      ensures Valid()
      ensures var cleaned := CleanCategoryForm(form);
              && (cleaned.Err? ==> r == Err(cleaned.error) && unchanged(this))
              && (cleaned.Ok? ==>
                    && r == Ok(old(nextId)) && nextId == old(nextId) + 1
                    && categories == old(categories) + [NewCategory(old(nextId), user, cleaned.value.name, now)
                                                          .(kind := cleaned.value.kind, icon := cleaned.value.icon, color := cleaned.value.color)])
      ensures users == old(users) && profiles == old(profiles) && expenses == old(expenses) && incomes == old(incomes)
    {
      var cleaned := CleanCategoryForm(form);
      if cleaned.Err? {
        return Err(cleaned.error);
      }
      var v := cleaned.value;
      var c := NewCategory(nextId, user, v.name, now).(kind := v.kind, icon := v.icon, color := v.color);
      AppendCategory(c);
      r := Ok(c.id);
    }

    /**
     * `CategoryUpdateView.post`: not found unless the user owns a category
     * with that key; a valid form rewrites its name, type, icon and colour.
     */
    method UpdateCategory(user: UserId, pk: nat, form: CategoryForm) returns (r: Outcome)
      requires Valid()
      modifies this
      ensures Valid()
      ensures !OwnsCategory(old(categories), user, pk) ==> r == NotFound && unchanged(this)
      ensures OwnsCategory(old(categories), user, pk) ==>
                var cleaned := CleanCategoryForm(form);
                && (cleaned.Err? ==> r == Invalid(cleaned.error) && unchanged(this))
                && (cleaned.Ok? ==> r == Done && categories == Recategorized(old(categories), pk, cleaned.value))
      ensures users == old(users) && profiles == old(profiles) && expenses == old(expenses) && incomes == old(incomes)
      ensures nextId == old(nextId)
    {
      if !OwnsCategory(categories, user, pk) {
        return NotFound;
      }
      var cleaned := CleanCategoryForm(form);
      if cleaned.Err? {
        return Invalid(cleaned.error);
      }
      SetCategories(Recategorized(categories, pk, cleaned.value));
      r := Done;
    }

    /**
     * `CategoryDeleteView.post`: not found unless the user owns a category
     * with that key; otherwise it goes, and every expense and income row that
     * pointed at it is kept with no category (`on_delete=SET_NULL`).
     */
    method DeleteCategory(user: UserId, pk: nat) returns (r: Outcome)
      requires Valid()
      modifies this
      ensures Valid()
      ensures !OwnsCategory(old(categories), user, pk) ==> r == NotFound && unchanged(this)
      ensures OwnsCategory(old(categories), user, pk) ==>
                && r == Done
                && categories == Select(old(categories), (c: Category) => c.id != pk)
                && expenses == Detach(old(expenses), pk)
                && incomes == Detach(old(incomes), pk)
      ensures users == old(users) && profiles == old(profiles) && nextId == old(nextId)
    {
      if !OwnsCategory(categories, user, pk) {
        return NotFound;
      }
      var remaining := Select(categories, (c: Category) => c.id != pk);
      DeleteCategoryKeepsValid(users, categories, expenses, incomes, nextId, pk);
      categories := remaining;
      expenses := Detach(expenses, pk);
      incomes := Detach(incomes, pk);
      r := Done;
    }

    // ─── Users ───────────────────────────────────────────────────────────────

    /**
     * Deleting a user (`on_delete=CASCADE` on every foreign key to User):
     * their profile, categories, expenses and incomes go with them, and
     * nobody else's rows change.
     */
    method DeleteUser(user: UserId)
      requires Valid()
      modifies this
      ensures Valid()
      ensures users == Select(old(users), OtherUser(user))
      ensures profiles == Select(old(profiles), OtherProfile(user))
      ensures categories == Select(old(categories), OtherCategory(user))
      ensures expenses == Select(old(expenses), OtherRow(user))
      ensures incomes == Select(old(incomes), OtherRow(user))
      ensures nextId == old(nextId)
    {
      DeleteUserKeepsValid(users, profiles, categories, expenses, incomes, nextId, user);
      users := Select(users, OtherUser(user));
      profiles := Select(profiles, OtherProfile(user));
      categories := Select(categories, OtherCategory(user));
      expenses := Select(expenses, OtherRow(user));
      incomes := Select(incomes, OtherRow(user));
    }

    // ─── Profile ─────────────────────────────────────────────────────────────

    /**
     * `ToggleDarkModeView.post`: the user's profile (created with its
     * defaults when missing) has its dark mode flipped; the new value is
     * returned and is what every later page of that user shows.
     */
    method ToggleDarkMode(user: UserId, now: Timestamp) returns (dark: bool)
      requires Valid() && IsUser(users, user)
      modifies this
      ensures Valid()
      ensures dark == !old(ThemeFor(Some(user))).darkMode
      ensures ThemeFor(Some(user)) == old(ThemeFor(Some(user))).(darkMode := dark)
      ensures FindProfile(profiles, user)
           == Some(if old(FindProfile(profiles, user)).Some?
                   then old(FindProfile(profiles, user)).value.(darkMode := dark)
                   else NewProfile(user, now).(darkMode := true))
      ensures forall other :: other != user ==> FindProfile(profiles, other) == old(FindProfile(profiles, other))
      ensures users == old(users) && categories == old(categories) && expenses == old(expenses)
      ensures incomes == old(incomes) && nextId == old(nextId)
    {
      var found := FindProfile(profiles, user);
      if found.None? {
        var p := NewProfile(user, now).(darkMode := true);
        AddProfileKeepsValid(users, profiles, p);
        FindProfileAppend(profiles, p);
        profiles := profiles + [p];
        dark := true;
      } else {
        var p := found.value;
        var i := ProfileIndex(profiles, user);
        var flipped := p.(darkMode := !p.darkMode);
        SetProfileKeepsValid(users, profiles, i, flipped);
        FindProfileUpdate(profiles, user, flipped);
        profiles := profiles[i := flipped];
        dark := flipped.darkMode;
      }
    }
  }

  // ─── Integrity lemmas ──────────────────────────────────────────────────────

  lemma AddCategoryKeepsValid(users: seq<User>, cats: seq<Category>, expenses: seq<Transaction>,
                              incomes: seq<Transaction>, nextId: nat, c: Category)
    requires CategoriesValid(users, cats, nextId) && RowsValid(users, cats, expenses, nextId)
    requires RowsValid(users, cats, incomes, nextId) && UsersValid(users, nextId)
    requires c.id == nextId && IsUser(users, c.user)
    ensures CategoriesValid(users, cats + [c], nextId + 1)
    ensures RowsValid(users, cats + [c], expenses, nextId + 1) && RowsValid(users, cats + [c], incomes, nextId + 1)
    ensures UsersValid(users, nextId + 1)
  {
    forall t | t in expenses ensures RefersToOwn(cats + [c], t) {
      if t.category.Some? {
        var d :| d in cats && d.id == t.category.value && d.user == t.user;
        assert d in cats + [c];
      }
    }
    forall t | t in incomes ensures RefersToOwn(cats + [c], t) {
      if t.category.Some? {
        var d :| d in cats && d.id == t.category.value && d.user == t.user;
        assert d in cats + [c];
      }
    }
  }

  /** A user who owns no category yet receives the whole catalog. */
  lemma RegistrationSeeds(cats: seq<Category>, user: UserId, nextId: nat, now: Timestamp)
    requires forall c :: c in cats ==> c.user != user
    ensures Seed(cats, user, DefaultCategories, nextId, now)
         == SeedResult(cats + SeedAll(DefaultCategories, user, nextId, now), nextId + |DefaultCategories|, true)
  {
    forall e | e in DefaultCategories ensures CountNamed(cats, user, e.name) == 0 {
      NoCategoriesYet(cats, user, e.name);
    }
    DefaultCatalog();
    SeedFresh(cats, user, DefaultCategories, nextId, now);
  }

  /** The next key belongs to no user yet, so no category names it as owner. */
  lemma FreshKeyOwnsNothing(users: seq<User>, cats: seq<Category>, nextId: nat)
    requires UsersValid(users, nextId) && CategoriesValid(users, cats, nextId)
    ensures forall c :: c in cats ==> c.user != nextId
  {
    forall c | c in cats ensures c.user != nextId {
      var u :| u in users && u.id == c.user;
    }
  }

  /** A user who is not yet registered owns no category. */
  lemma NoCategoriesYet(cats: seq<Category>, user: UserId, name: string)
    requires forall c :: c in cats ==> c.user != user
    ensures CountNamed(cats, user, name) == 0
  {
    if cats != [] {
      assert cats[0] in cats;
      NoCategoriesYet(cats[1..], user, name);
    }
  }

  lemma NewUserKeepsValid(users: seq<User>, profiles: seq<UserProfile>, cats: seq<Category>,
                          expenses: seq<Transaction>, incomes: seq<Transaction>, nextId: nat, u: User, p: UserProfile)
    requires UsersValid(users, nextId) && ProfilesValid(users, profiles) && CategoriesValid(users, cats, nextId)
    requires RowsValid(users, cats, expenses, nextId) && RowsValid(users, cats, incomes, nextId)
    requires u.id == nextId && p.user == nextId
    ensures UsersValid(users + [u], nextId + 1) && ProfilesValid(users + [u], profiles + [p])
    ensures CategoriesValid(users + [u], cats, nextId + 1)
    ensures RowsValid(users + [u], cats, expenses, nextId + 1) && RowsValid(users + [u], cats, incomes, nextId + 1)
    ensures forall c :: c in cats ==> c.user != nextId
  {
    forall id | IsUser(users, id) ensures IsUser(users + [u], id) {
      var v :| v in users && v.id == id;
      assert v in users + [u];
    }
    assert IsUser(users + [u], p.user) by { assert u in users + [u]; }
    forall q | q in profiles ensures q.user != p.user {
      var v :| v in users && v.id == q.user;
    }
    forall c | c in cats ensures c.user != nextId {
      var v :| v in users && v.id == c.user;
    }
  }

  /** A category chosen on a transaction form belongs to the requesting user. */
  lemma ChosenCategoryIsOwn(cats: seq<Category>, user: UserId, kind: TransactionKind, chosen: Option<nat>, t: Transaction)
    requires chosen.None? || IsChoice(CategoryChoices(cats, Some(user), kind), chosen.value)
    requires t.user == user && t.category == chosen
    ensures RefersToOwn(cats, t)
  {
  }

  lemma AddRowKeepsValid(users: seq<User>, cats: seq<Category>, rows: seq<Transaction>, nextId: nat, t: Transaction)
    requires RowsValid(users, cats, rows, nextId)
    requires t.id == nextId && IsUser(users, t.user) && 0 < t.amount < AmountBound && RefersToOwn(cats, t)
    ensures RowsValid(users, cats, rows + [t], nextId + 1)
  {
  }

  lemma ReplaceKeepsValid(users: seq<User>, cats: seq<Category>, rows: seq<Transaction>, nextId: nat,
                          user: UserId, pk: nat, kind: TransactionKind, v: CleanedTransaction, now: Timestamp)
    requires RowsValid(users, cats, rows, nextId) && OwnsRow(rows, user, pk)
    requires 0 < v.amount < AmountBound
    requires v.category.None? || IsChoice(CategoryChoices(cats, Some(user), kind), v.category.value)
    ensures RowsValid(users, cats, ReplaceRow(rows, pk, v, now), nextId)
  {
    var r := ReplaceRow(rows, pk, v, now);
    forall i | 0 <= i < |r| && rows[i].id == pk ensures rows[i].user == user {
      var t :| t in rows && t.id == pk && t.user == user;
      var j :| 0 <= j < |rows| && rows[j] == t;
      assert i == j;
    }
    forall t | t in r ensures t.id < nextId && IsUser(users, t.user) && 0 < t.amount < AmountBound && RefersToOwn(cats, t) {
      var i :| 0 <= i < |r| && r[i] == t;
      assert rows[i] in rows;
    }
  }

  lemma SelectRowsKeepsValid(users: seq<User>, cats: seq<Category>, rows: seq<Transaction>, nextId: nat, p: Transaction -> bool)
    requires RowsValid(users, cats, rows, nextId)
    ensures RowsValid(users, cats, Select(rows, p), nextId)
  {
    SelectKeepsInjective(rows, p, RowKey());
  }

  lemma RecategorizeKeepsValid(users: seq<User>, cats: seq<Category>, updated: seq<Category>,
                               expenses: seq<Transaction>, incomes: seq<Transaction>, nextId: nat)
    requires CategoriesValid(users, cats, nextId)
    requires RowsValid(users, cats, expenses, nextId) && RowsValid(users, cats, incomes, nextId)
    requires |updated| == |cats|
    requires forall i :: 0 <= i < |cats| ==> updated[i].id == cats[i].id && updated[i].user == cats[i].user
    ensures CategoriesValid(users, updated, nextId)
    ensures RowsValid(users, updated, expenses, nextId) && RowsValid(users, updated, incomes, nextId)
  {
    forall c | c in updated ensures c.id < nextId && IsUser(users, c.user) {
      var i :| 0 <= i < |updated| && updated[i] == c;
      assert cats[i] in cats;
    }
    forall t | t in expenses + incomes ensures RefersToOwn(updated, t) {
      assert t in expenses || t in incomes;
      if t.category.Some? {
        var d :| d in cats && d.id == t.category.value && d.user == t.user;
        var i :| 0 <= i < |cats| && cats[i] == d;
        assert updated[i] in updated;
      }
    }
    assert forall t :: t in expenses ==> t in expenses + incomes;
    assert forall t :: t in incomes ==> t in expenses + incomes;
  }

  lemma DeleteCategoryKeepsValid(users: seq<User>, cats: seq<Category>, expenses: seq<Transaction>,
                                 incomes: seq<Transaction>, nextId: nat, pk: nat)
    requires CategoriesValid(users, cats, nextId)
    requires RowsValid(users, cats, expenses, nextId) && RowsValid(users, cats, incomes, nextId)
    ensures var remaining := Select(cats, (c: Category) => c.id != pk);
            && CategoriesValid(users, remaining, nextId)
            && RowsValid(users, remaining, Detach(expenses, pk), nextId)
            && RowsValid(users, remaining, Detach(incomes, pk), nextId)
  {
    var keep := (c: Category) => c.id != pk;
    var remaining := Select(cats, keep);
    SelectKeepsInjective(cats, keep, CategoryKey());
    DetachKeepsValid(users, cats, expenses, nextId, pk);
    DetachKeepsValid(users, cats, incomes, nextId, pk);
  }

  lemma DetachKeepsValid(users: seq<User>, cats: seq<Category>, rows: seq<Transaction>, nextId: nat, pk: nat)
    requires RowsValid(users, cats, rows, nextId)
    ensures RowsValid(users, Select(cats, (c: Category) => c.id != pk), Detach(rows, pk), nextId)
  {
    var keep := (c: Category) => c.id != pk;
    var d := Detach(rows, pk);
    forall t | t in d ensures t.id < nextId && IsUser(users, t.user) && 0 < t.amount < AmountBound
                          && RefersToOwn(Select(cats, keep), t)
    {
      var i :| 0 <= i < |d| && d[i] == t;
      assert rows[i] in rows;
      if t.category.Some? {
        var c :| c in cats && c.id == t.category.value && c.user == t.user;
        SelectMembership(cats, keep, c);
      }
    }
  }

  lemma DeleteUserKeepsValid(users: seq<User>, profiles: seq<UserProfile>, cats: seq<Category>,
                             expenses: seq<Transaction>, incomes: seq<Transaction>, nextId: nat, user: UserId)
    requires UsersValid(users, nextId) && ProfilesValid(users, profiles) && CategoriesValid(users, cats, nextId)
    requires RowsValid(users, cats, expenses, nextId) && RowsValid(users, cats, incomes, nextId)
    ensures Consistent(Select(users, OtherUser(user)), Select(profiles, OtherProfile(user)), Select(cats, OtherCategory(user)),
                       Select(expenses, OtherRow(user)), Select(incomes, OtherRow(user)), nextId)
  {
    var keepUser := OtherUser(user);
    var keepCat := OtherCategory(user);
    var us := Select(users, keepUser);
    var cs := Select(cats, keepCat);
    SelectKeepsInjective(users, keepUser, UserKey());
    SelectKeepsInjective(profiles, OtherProfile(user), ProfileKey());
    SelectKeepsInjective(cats, keepCat, CategoryKey());
    forall id | IsUser(users, id) && id != user ensures IsUser(us, id) {
      var v :| v in users && v.id == id;
      SelectMembership(users, keepUser, v);
    }
    CascadeRowsValid(users, us, cats, cs, expenses, nextId, user);
    CascadeRowsValid(users, us, cats, cs, incomes, nextId, user);
  }

  lemma CascadeRowsValid(users: seq<User>, us: seq<User>, cats: seq<Category>, cs: seq<Category>,
                         rows: seq<Transaction>, nextId: nat, user: UserId)
    requires RowsValid(users, cats, rows, nextId)
    requires cs == Select(cats, OtherCategory(user))
    requires forall id :: IsUser(users, id) && id != user ==> IsUser(us, id)
    ensures RowsValid(us, cs, Select(rows, OtherRow(user)), nextId)
  {
    var keep := OtherRow(user);
    SelectKeepsInjective(rows, keep, RowKey());
    forall t | t in Select(rows, keep) ensures RefersToOwn(cs, t) {
      SelectMembership(rows, keep, t);
      if t.category.Some? {
        var c :| c in cats && c.id == t.category.value && c.user == t.user;
        SelectMembership(cats, OtherCategory(user), c);
      }
    }
    forall t | t in Select(rows, keep) ensures IsUser(us, t.user) {
      SelectMembership(rows, keep, t);
    }
  }

  lemma AddProfileKeepsValid(users: seq<User>, profiles: seq<UserProfile>, p: UserProfile)
    requires ProfilesValid(users, profiles) && IsUser(users, p.user)
    requires forall q :: q in profiles ==> q.user != p.user
    ensures ProfilesValid(users, profiles + [p])
  {
  }

  lemma SetProfileKeepsValid(users: seq<User>, profiles: seq<UserProfile>, i: nat, p: UserProfile)
    requires ProfilesValid(users, profiles) && i < |profiles| && p.user == profiles[i].user
    ensures ProfilesValid(users, profiles[i := p])
  {
    forall q | q in profiles[i := p] ensures IsUser(users, q.user) {
      var j :| 0 <= j < |profiles[i := p]| && profiles[i := p][j] == q;
      assert profiles[j] in profiles;
    }
  }

  /** The position of the user's profile. */
  function ProfileIndex(profiles: seq<UserProfile>, user: UserId): (i: nat)
    requires FindProfile(profiles, user).Some?
    ensures i < |profiles| && profiles[i] == FindProfile(profiles, user).value
    ensures forall j :: 0 <= j < i ==> profiles[j].user != user
  {
    if profiles[0].user == user then 0 else 1 + ProfileIndex(profiles[1..], user)
  }

  lemma {:induction false} FindProfileAppend(profiles: seq<UserProfile>, p: UserProfile)
    requires forall q :: q in profiles ==> q.user != p.user
    ensures FindProfile(profiles + [p], p.user) == Some(p)
    ensures forall other :: other != p.user ==> FindProfile(profiles + [p], other) == FindProfile(profiles, other)
  {
    if profiles == [] {
      assert [] + [p] == [p];
    } else {
      assert (profiles + [p])[0] == profiles[0] && (profiles + [p])[1..] == profiles[1..] + [p];
      assert profiles[0] in profiles;
      FindProfileAppend(profiles[1..], p);
    }
  }

  /** Rewriting the user's profile changes what that user's lookup finds and nobody else's. */
  lemma {:induction false} FindProfileUpdate(profiles: seq<UserProfile>, user: UserId, p: UserProfile)
    requires FindProfile(profiles, user).Some? && p.user == user
    ensures var i := ProfileIndex(profiles, user);
            && FindProfile(profiles[i := p], user) == Some(p)
            && forall other :: other != user ==> FindProfile(profiles[i := p], other) == FindProfile(profiles, other)
  {
    var i := ProfileIndex(profiles, user);
    if profiles[0].user == user {
      assert profiles[i := p] == [p] + profiles[1..];
      assert ([p] + profiles[1..])[1..] == profiles[1..];
    } else {
      FindProfileUpdate(profiles[1..], user, p);
      assert profiles[i := p][1..] == profiles[1..][i - 1 := p];
    }
  }
}
