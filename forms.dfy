/**
 * The validation and choice rules of expenses/forms.py. A submitted form is
 * a record of already-parsed field values (`None` for an empty field);
 * cleaning yields either the cleaned values or the list of field errors,
 * which is what `form.is_valid()` decides on.
 */
module Forms {
  import opened Wrappers
  import opened Sequences
  import opened Models
  import Text

  datatype FormError =
    | Required(field: string)
    | TooLong(field: string, limit: nat)
    | AmountTooManyDigits
    | AmountNotPositive
    | InvalidChoice(field: string)
    | NullCharacter(field: string)
    | EmailTaken

  // ─── Amount ────────────────────────────────────────────────────────────────

  /**
   * `clean_amount` of ExpenseForm and IncomeForm: a present amount that is
   * zero or negative is rejected; anything else comes back unchanged.
   */
  function CleanAmount(amount: Option<Cents>): (r: Result<Option<Cents>, FormError>)
    ensures r.Err? <==> amount.Some? && amount.value <= 0
    ensures r.Err? ==> r.error == AmountNotPositive
    ensures r.Ok? ==> r.value == amount
  {
    if amount.Some? && amount.value <= 0 then Err(AmountNotPositive) else Ok(amount)
  }

  /**
   * The errors of the amount field: the field is required, its decimal
   * validator caps the number of digits, and only a value that passed both
   * reaches `clean_amount`.
   */
  function AmountErrors(amount: Option<Cents>): (r: seq<FormError>)
    ensures r == [] <==> amount.Some? && 0 < amount.value < AmountBound
    ensures |r| <= 1
  {
    if amount.None? then [Required("amount")]
    else if !FitsAmountField(amount.value) then [AmountTooManyDigits]
    else match CleanAmount(amount)
      case Err(e) => [e]
      case Ok(_) => []
  }

  // ─── Category choices ──────────────────────────────────────────────────────

  /** The category types a transaction form offers: `['expense', 'both']` or `['income', 'both']`. */
  predicate Accepts(kind: TransactionKind, c: Category)
  {
    c.kind == BothType || (if kind == ExpenseKind then c.kind == ExpenseType else c.kind == IncomeType)
  }

  /**
   * The category choices of ExpenseForm (`kind == ExpenseKind`) and IncomeForm
   * (`kind == IncomeKind`): with a user, that user's categories of a matching
   * type; without one, the model field's default choices, every category.
   */
  function CategoryChoices(cats: seq<Category>, user: Option<UserId>, kind: TransactionKind): (r: seq<Category>)
    ensures user.Some? ==> forall c :: c in r <==> c in cats && c.user == user.value && Accepts(kind, c)
    ensures user.None? ==> r == cats
  {
    match user
    case Some(u) =>
      var r := Select(cats, (c: Category) => c.user == u && Accepts(kind, c));
      r
    case None => cats
  }

  /**
   * The category choices of ExpenseFilterForm: none without a user, else
   * every category of that user, whatever its type.
   */
  function FilterCategoryChoices(cats: seq<Category>, user: Option<UserId>): (r: seq<Category>)
    ensures user.None? ==> r == []
    ensures user.Some? ==> forall c :: c in r <==> c in cats && c.user == user.value
  {
    match user
    case Some(u) => Select(cats, (c: Category) => c.user == u)
    case None => []
  }

  /** A choice field accepts a submitted id only when one of its choices has it. */
  predicate IsChoice(choices: seq<Category>, id: nat)
  {
    exists c :: c in choices && c.id == id
  }

  // ─── Expense and income forms ──────────────────────────────────────────────

  /** The fields of ExpenseForm / IncomeForm as submitted. */
  datatype TransactionForm = TransactionForm(
    title: string,
    amount: Option<Cents>,
    category: Option<nat>,
    date: Option<Day>,
    description: string)

  /** The values a valid form saves into the row. */
  datatype CleanedTransaction = CleanedTransaction(
    title: string,
    amount: Cents,
    category: Option<nat>,
    date: Day,
    description: string)

  const TitleMaxLength: nat := 200

  /**
   * The validators every text field runs on a non-empty stripped value: its
   * length limit, then the refusal of NUL characters; both errors may occur.
   */
  function TextErrors(field: string, v: string, limit: nat): seq<FormError>
  {
    (if |v| > limit then [TooLong(field, limit)] else [])
    + (if '\0' in v then [NullCharacter(field)] else [])
  }

  function TitleErrors(title: string): seq<FormError>
  {
    var t := Text.Strip(title);
    if t == "" then [Required("title")] else TextErrors("title", t, TitleMaxLength)
  }

  /** The optional description has no length limit but refuses NUL characters too. */
  function DescriptionErrors(description: string): seq<FormError>
  {
    if '\0' in Text.Strip(description) then [NullCharacter("description")] else []
  }

  function CategoryErrors(choices: seq<Category>, category: Option<nat>): seq<FormError>
  {
    if category.Some? && !IsChoice(choices, category.value) then [InvalidChoice("category")] else []
  }

  /**
   * `form.is_valid()` of ExpenseForm / IncomeForm against the given category
   * choices: a required non-blank title of at most 200 characters, a valid
   * positive amount, an optional category among the choices, a required date,
   * and no NUL character in the title or the description.
   */
  function CleanTransactionForm(f: TransactionForm, choices: seq<Category>): (r: Result<CleanedTransaction, seq<FormError>>)
    ensures r.Ok? <==>
              && Text.Strip(f.title) != "" && |Text.Strip(f.title)| <= TitleMaxLength && '\0' !in Text.Strip(f.title)
              && f.amount.Some? && 0 < f.amount.value < AmountBound
              && (f.category.None? || IsChoice(choices, f.category.value))
              && f.date.Some?
              && '\0' !in Text.Strip(f.description)
    ensures r.Ok? ==> r.value.amount == f.amount.value && 0 < r.value.amount < AmountBound
    ensures r.Ok? ==> r.value.category == f.category && r.value.date == f.date.value
    ensures r.Ok? ==> r.value.title == Text.Strip(f.title) && r.value.description == Text.Strip(f.description)
    ensures r.Err? ==> r.error != []
  {
    var errors := TitleErrors(f.title) + AmountErrors(f.amount) + CategoryErrors(choices, f.category)
                  + (if f.date.None? then [Required("date")] else []) + DescriptionErrors(f.description);
    if errors == [] then
      Ok(CleanedTransaction(Text.Strip(f.title), f.amount.value, f.category, f.date.value, Text.Strip(f.description)))
    else
      Err(errors)
  }

  // ─── Category form ─────────────────────────────────────────────────────────

  /** The fields of CategoryForm as submitted; `kind` is None when the type is not one of the choices. */
  datatype CategoryForm = CategoryForm(name: string, kind: Option<CategoryType>, icon: string, color: string)

  datatype CleanedCategory = CleanedCategory(name: string, kind: CategoryType, icon: string, color: string)

  function TextFieldErrors(field: string, value: string, limit: nat): seq<FormError>
  {
    var v := Text.Strip(value);
    if v == "" then [Required(field)] else TextErrors(field, v, limit)
  }

  /** `form.is_valid()` of CategoryForm: the model's required fields and length limits, and no NUL character. */
  function CleanCategoryForm(f: CategoryForm): (r: Result<CleanedCategory, seq<FormError>>)
    ensures r.Ok? <==>
              && Text.Strip(f.name) != "" && |Text.Strip(f.name)| <= 100 && '\0' !in Text.Strip(f.name)
              && f.kind.Some?
              && Text.Strip(f.icon) != "" && |Text.Strip(f.icon)| <= 50 && '\0' !in Text.Strip(f.icon)
              && Text.Strip(f.color) != "" && |Text.Strip(f.color)| <= 7 && '\0' !in Text.Strip(f.color)
    ensures r.Ok? ==> r.value == CleanedCategory(Text.Strip(f.name), f.kind.value, Text.Strip(f.icon), Text.Strip(f.color))
  {
    var errors := TextFieldErrors("name", f.name, 100)
                  + (if f.kind.None? then [InvalidChoice("category_type")] else [])
                  + TextFieldErrors("icon", f.icon, 50)
                  + TextFieldErrors("color", f.color, 7);
    if errors == [] then
      Ok(CleanedCategory(Text.Strip(f.name), f.kind.value, Text.Strip(f.icon), Text.Strip(f.color)))
    else
      Err(errors)
  }

  // ─── Filter forms ──────────────────────────────────────────────────────────

  /**
   * ExpenseFilterForm as submitted. Every field is optional; `malformed` stands
   * for a date or number that did not parse, which invalidates the form. The
   * amount bounds are decimal fields without a fixed number of places, so a
   * bound is any decimal number of currency units.
   */
  datatype FilterForm = FilterForm(
    search: string,
    category: Option<nat>,
    dateFrom: Option<Day>,
    dateTo: Option<Day>,
    amountMin: Option<real>,
    amountMax: Option<real>,
    malformed: bool)

  /** The least whole number of cents that is at least `bound` units. */
  function MinCents(bound: real): Cents
  {
    -((-100.0 * bound).Floor)
  }

  /** The greatest whole number of cents that is at most `bound` units. */
  function MaxCents(bound: real): Cents
  {
    (100.0 * bound).Floor
  }

  /**
   * `amount__gte=bound` and `amount__lte=bound` on a two-place amount: comparing
   * the cents with the converted bound is comparing the decimal values.
   */
  lemma BoundsInCents(bound: real, amount: Cents)
    ensures amount >= MinCents(bound) <==> amount as real / 100.0 >= bound
    ensures amount <= MaxCents(bound) <==> amount as real / 100.0 <= bound
  {
    var lo := -100.0 * bound;
    assert lo.Floor as real <= lo < lo.Floor as real + 1.0;
    var hi := 100.0 * bound;
    assert hi.Floor as real <= hi < hi.Floor as real + 1.0;
  }

  /** An absent bound stays absent; a given one becomes the cents that compare with it alike. */
  function MinBound(bound: Option<real>): Option<Cents>
  {
    if bound.Some? then Some(MinCents(bound.value)) else None
  }

  function MaxBound(bound: Option<real>): Option<Cents>
  {
    if bound.Some? then Some(MaxCents(bound.value)) else None
  }

  /** The cleaned data of a valid ExpenseFilterForm; an empty `search` means no search. */
  datatype ExpenseFilter = ExpenseFilter(
    search: string,
    category: Option<nat>,
    dateFrom: Option<Day>,
    dateTo: Option<Day>,
    amountMin: Option<Cents>,
    amountMax: Option<Cents>)

  /**
   * `form.is_valid()` and `cleaned_data` of ExpenseFilterForm for `user`: the
   * form is invalid when a value did not parse, the search holds a NUL
   * character or the category is not one of the user's; otherwise the search
   * text comes back stripped and each amount bound is converted to the cents
   * that compare with it as the decimal does (see `BoundsInCents`).
   */
  function CleanFilter(f: FilterForm, cats: seq<Category>, user: UserId): (r: Option<ExpenseFilter>)
    ensures r.None? <==>
              || f.malformed || '\0' in Text.Strip(f.search)
              || (f.category.Some? && !IsChoice(FilterCategoryChoices(cats, Some(user)), f.category.value))
    ensures r.Some? ==> r.value == ExpenseFilter(Text.Strip(f.search), f.category, f.dateFrom, f.dateTo,
                                                 MinBound(f.amountMin), MaxBound(f.amountMax))
  {
    if || f.malformed || '\0' in Text.Strip(f.search)
       || (f.category.Some? && !IsChoice(FilterCategoryChoices(cats, Some(user)), f.category.value))
    then None
    else Some(ExpenseFilter(Text.Strip(f.search), f.category, f.dateFrom, f.dateTo, MinBound(f.amountMin), MaxBound(f.amountMax)))
  }

  /** An optional inclusive date range; an absent bound imposes nothing. */
  datatype DateRange = DateRange(from: Option<Day>, to: Option<Day>)

  /**
   * DateRangeFilterForm built from `request.GET or None`: an empty query string
   * leaves the form unbound, and an unbound or invalid form gives no bounds.
   */
  datatype DateRangeForm = DateRangeForm(bound: bool, malformed: bool, dateFrom: Option<Day>, dateTo: Option<Day>)

  function CleanDateRange(f: DateRangeForm): (r: DateRange)
    ensures !f.bound || f.malformed ==> r == DateRange(None, None)
    ensures f.bound && !f.malformed ==> r == DateRange(f.dateFrom, f.dateTo)
  {
    if f.bound && !f.malformed then DateRange(f.dateFrom, f.dateTo) else DateRange(None, None)
  }

  // ─── Registration ──────────────────────────────────────────────────────────

  /** `UserRegisterForm.clean_email`: an address any existing user already has is refused. */
  function CleanEmail(users: seq<User>, email: string): (r: Result<string, FormError>)
    ensures r.Err? <==> exists u :: u in users && u.email == email
    ensures r.Err? ==> r.error == EmailTaken
    ensures r.Ok? ==> r.value == email
  {
    if exists u :: u in users && u.email == email then Err(EmailTaken) else Ok(email)
  }

  /**
   * The email field of UserRegisterForm: required, stripped, then checked by
   * `clean_email`. Ok carries the address the new user is saved with.
   */
  function CleanRegistrationEmail(users: seq<User>, email: string): (r: Result<string, FormError>)
    ensures r.Ok? <==> Text.Strip(email) != "" && forall u :: u in users ==> u.email != Text.Strip(email)
    ensures r.Ok? ==> r.value == Text.Strip(email)
  {
    var e := Text.Strip(email);
    if e == "" then Err(Required("email")) else CleanEmail(users, e)
  }
}
