/**
 * `DEFAULT_CATEGORIES` and `create_default_categories` (expenses/views.py):
 * one `get_or_create` per catalog entry, looked up by owner and name. The
 * lookup finds zero, one or several categories, since names are not unique;
 * several make `get_or_create` raise, which ends the seeding with the
 * categories created so far kept.
 */
module Seeder {
  import opened Sequences
  import opened Models

  /** One entry of `DEFAULT_CATEGORIES`. */
  datatype SeedEntry = SeedEntry(name: string, kind: CategoryType, icon: string, color: string)

  /** The expense half of `DEFAULT_CATEGORIES`. */
  const ExpenseDefaults: seq<SeedEntry> := [
    SeedEntry("Food & Dining", ExpenseType, "bi-cup-hot", "#e74c3c"),
    SeedEntry("Transportation", ExpenseType, "bi-car-front", "#3498db"),
    SeedEntry("Shopping", ExpenseType, "bi-bag", "#9b59b6"),
    SeedEntry("Entertainment", ExpenseType, "bi-controller", "#e67e22"),
    SeedEntry("Healthcare", ExpenseType, "bi-heart-pulse", "#1abc9c"),
    SeedEntry("Utilities", ExpenseType, "bi-lightning", "#f1c40f"),
    SeedEntry("Housing", ExpenseType, "bi-house", "#e91e63"),
    SeedEntry("Education", ExpenseType, "bi-book", "#00bcd4")
  ]

  /** The income half of `DEFAULT_CATEGORIES`. */
  const IncomeDefaults: seq<SeedEntry> := [
    SeedEntry("Salary", IncomeType, "bi-cash-stack", "#27ae60"),
    SeedEntry("Freelance", IncomeType, "bi-laptop", "#2980b9"),
    SeedEntry("Investment", IncomeType, "bi-graph-up-arrow", "#8e44ad"),
    SeedEntry("Other Income", IncomeType, "bi-plus-circle", "#16a085")
  ]

  const DefaultCategories: seq<SeedEntry> := ExpenseDefaults + IncomeDefaults

  predicate DistinctNames(entries: seq<SeedEntry>)
  {
    forall i, j :: 0 <= i < j < |entries| ==> entries[i].name != entries[j].name
  }

  /**
   * The catalog: twelve entries with distinct names, the first eight of type
   * expense and the last four of type income.
   */
  lemma DefaultCatalog()
    ensures |DefaultCategories| == 12 && DistinctNames(DefaultCategories)
    ensures forall i :: 0 <= i < 8 ==> DefaultCategories[i].kind == ExpenseType
    ensures forall i :: 8 <= i < 12 ==> DefaultCategories[i].kind == IncomeType
  {
  }

  /** `Category(**cat, user=user, is_default=True)` */
  function SeedCategory(id: nat, user: UserId, e: SeedEntry, now: Timestamp): Category
  {
    Category(id, user, e.name, e.kind, e.icon, e.color, true, now)
  }

  /**
   * The create half of `get_or_create(user=user, name=..., defaults={**cat,
   * 'is_default': True})`: the entry's type, icon and colour and the default
   * mark replace the model defaults, and nothing else differs.
   */
  lemma SeedCategoryOverridesDefaults(id: nat, user: UserId, e: SeedEntry, now: Timestamp)
    ensures SeedCategory(id, user, e, now)
         == NewCategory(id, user, e.name, now).(kind := e.kind, icon := e.icon, color := e.color, isDefault := true)
  {
  }

  /** The number of categories `Category.objects.filter(user=user, name=name)` finds. */
  function CountNamed(cats: seq<Category>, user: UserId, name: string): nat
  {
    if cats == [] then 0
    else (if cats[0].user == user && cats[0].name == name then 1 else 0) + CountNamed(cats[1..], user, name)
  }

  lemma {:induction false} CountNamedAppend(a: seq<Category>, b: seq<Category>, user: UserId, name: string)
    ensures CountNamed(a + b, user, name) == CountNamed(a, user, name) + CountNamed(b, user, name)
  {
    if a == [] {
      assert a + b == b;
    } else {
      assert (a + b)[0] == a[0] && (a + b)[1..] == a[1..] + b;
      CountNamedAppend(a[1..], b, user, name);
    }
  }

  lemma CountNamedOne(c: Category, user: UserId, name: string)
    ensures CountNamed([c], user, name) == if c.user == user && c.name == name then 1 else 0
  {
    assert [c][1..] == [];
  }

  datatype SeedResult = SeedResult(categories: seq<Category>, nextId: nat, ok: bool)

  /**
   * The effect of the seeding loop over `entries`, new categories taking
   * ids from `nextId` on: an entry whose name the user has once is left
   * alone, a missing one is created, and a name the user has twice or more
   * stops the loop (`ok` false).
   */
  function Seed(cats: seq<Category>, user: UserId, entries: seq<SeedEntry>, nextId: nat, now: Timestamp): SeedResult
    decreases |entries|
  {
    if entries == [] then SeedResult(cats, nextId, true)
    else
      var n := CountNamed(cats, user, entries[0].name);
      if n >= 2 then SeedResult(cats, nextId, false)
      else if n == 1 then Seed(cats, user, entries[1..], nextId, now)
      else Seed(cats + [SeedCategory(nextId, user, entries[0], now)], user, entries[1..], nextId + 1, now)
  }

  /** The categories seeding creates for a user who has none of the names. */
  function SeedAll(entries: seq<SeedEntry>, user: UserId, nextId: nat, now: Timestamp): (r: seq<Category>)
    ensures |r| == |entries|
    ensures forall k :: 0 <= k < |r| ==> r[k] == SeedCategory(nextId + k, user, entries[k], now)
  {
    if entries == [] then [] else [SeedCategory(nextId, user, entries[0], now)] + SeedAll(entries[1..], user, nextId + 1, now)
  }

  /**
   * Seeding only appends: the existing categories stay as they were, and
   * every new category belongs to `user`, is marked default, carries a
   * catalog entry's fields and takes the next free id.
   */
  lemma {:induction false} SeedAppends(cats: seq<Category>, user: UserId, entries: seq<SeedEntry>, nextId: nat, now: Timestamp)
    ensures var r := Seed(cats, user, entries, nextId, now);
            && cats <= r.categories
            && r.nextId == nextId + |r.categories| - |cats|
            && forall k :: |cats| <= k < |r.categories| ==>
                 r.categories[k].id == nextId + k - |cats| && r.categories[k].user == user && r.categories[k].isDefault
                 && exists j :: 0 <= j < |entries| && r.categories[k] == SeedCategory(r.categories[k].id, user, entries[j], now)
    decreases |entries|
  {
    if entries != [] {
      var n := CountNamed(cats, user, entries[0].name);
      if n == 1 {
        SeedAppends(cats, user, entries[1..], nextId, now);
      } else if n == 0 {
        var c := SeedCategory(nextId, user, entries[0], now);
        SeedAppends(cats + [c], user, entries[1..], nextId + 1, now);
        var r := Seed(cats, user, entries, nextId, now);
        assert r == Seed(cats + [c], user, entries[1..], nextId + 1, now);
        forall k | |cats| <= k < |r.categories|
          ensures exists j :: 0 <= j < |entries| && r.categories[k] == SeedCategory(r.categories[k].id, user, entries[j], now)
        {
          if k == |cats| {
            assert r.categories[k] == (cats + [c])[k];
            assert r.categories[k] == SeedCategory(r.categories[k].id, user, entries[0], now);
          } else {
            assert |cats + [c]| <= k < |r.categories|;
            var j :| 0 <= j < |entries[1..]| && r.categories[k] == SeedCategory(r.categories[k].id, user, entries[1..][j], now);
            assert entries[1..][j] == entries[j + 1];
          }
        }
      }
    }
  }

  /**
   * Seeding succeeds exactly when, before it, the user has each catalog
   * name at most once.
   */
  lemma {:induction false} SeedSucceeds(cats: seq<Category>, user: UserId, entries: seq<SeedEntry>, nextId: nat, now: Timestamp)
    requires DistinctNames(entries)
    ensures Seed(cats, user, entries, nextId, now).ok <==> forall e :: e in entries ==> CountNamed(cats, user, e.name) <= 1
    decreases |entries|
  {
    if entries != [] {
      var n := CountNamed(cats, user, entries[0].name);
      var rest := entries[1..];
      assert DistinctNames(rest);
      if n == 1 {
        SeedSucceeds(cats, user, rest, nextId, now);
      } else if n == 0 {
        var c := SeedCategory(nextId, user, entries[0], now);
        SeedSucceeds(cats + [c], user, rest, nextId + 1, now);
        forall e | e in rest ensures CountNamed(cats + [c], user, e.name) == CountNamed(cats, user, e.name) {
          CountNamedAppend(cats, [c], user, e.name);
          var j :| 0 <= j < |rest| && rest[j] == e;
          assert entries[j + 1] == e;
        }
      }
    }
  }

  /**
   * How seeding changes the count of a name: a name the user lacked gains
   * one category when it is in the catalog; every other count stays.
   */
  lemma {:induction false} SeedCounts(cats: seq<Category>, user: UserId, entries: seq<SeedEntry>, nextId: nat, now: Timestamp, name: string)
    requires DistinctNames(entries) && Seed(cats, user, entries, nextId, now).ok
    ensures CountNamed(Seed(cats, user, entries, nextId, now).categories, user, name)
         == CountNamed(cats, user, name)
            + (if CountNamed(cats, user, name) == 0 && exists e :: e in entries && e.name == name then 1 else 0)
    decreases |entries|
  {
    if entries != [] {
      var n := CountNamed(cats, user, entries[0].name);
      var rest := entries[1..];
      assert DistinctNames(rest);
      assert forall e :: e in entries <==> e == entries[0] || e in rest;
      if n == 1 {
        SeedCounts(cats, user, rest, nextId, now, name);
      } else {
        var c := SeedCategory(nextId, user, entries[0], now);
        SeedCounts(cats + [c], user, rest, nextId + 1, now, name);
        CountNamedAppend(cats, [c], user, name);
        if name == entries[0].name {
          assert forall e :: e in rest ==> e.name != name by {
            forall e | e in rest ensures e.name != name {
              var j :| 0 <= j < |rest| && rest[j] == e;
              assert entries[j + 1] == e;
            }
          }
        }
      }
    }
  }

  /** After a successful seeding the user has every catalog name exactly once. */
  lemma SeedCompletes(cats: seq<Category>, user: UserId, entries: seq<SeedEntry>, nextId: nat, now: Timestamp)
    requires DistinctNames(entries) && Seed(cats, user, entries, nextId, now).ok
    ensures forall e :: e in entries ==> CountNamed(Seed(cats, user, entries, nextId, now).categories, user, e.name) == 1
  {
    SeedSucceeds(cats, user, entries, nextId, now);
    forall e | e in entries ensures CountNamed(Seed(cats, user, entries, nextId, now).categories, user, e.name) == 1 {
      SeedCounts(cats, user, entries, nextId, now, e.name);
    }
  }

  /** When every name is already there once, seeding changes nothing. */
  lemma {:induction false} SeedNothingToDo(cats: seq<Category>, user: UserId, entries: seq<SeedEntry>, nextId: nat, now: Timestamp)
    requires forall e :: e in entries ==> CountNamed(cats, user, e.name) == 1
    ensures Seed(cats, user, entries, nextId, now) == SeedResult(cats, nextId, true)
  {
    if entries != [] {
      assert entries[0] in entries;
      SeedNothingToDo(cats, user, entries[1..], nextId, now);
    }
  }

  /** Seeding twice is seeding once: the second run finds every name and creates nothing. */
  lemma SeedIdempotent(cats: seq<Category>, user: UserId, entries: seq<SeedEntry>, nextId: nat, now: Timestamp, later: Timestamp)
    requires DistinctNames(entries) && Seed(cats, user, entries, nextId, now).ok
    ensures var r := Seed(cats, user, entries, nextId, now);
            Seed(r.categories, user, entries, r.nextId, later) == r
  {
    var r := Seed(cats, user, entries, nextId, now);
    SeedCompletes(cats, user, entries, nextId, now);
    SeedNothingToDo(r.categories, user, entries, r.nextId, later);
  }

  /** Creating the first missing entry leaves the other entries missing. */
  lemma StillMissing(cats: seq<Category>, user: UserId, entries: seq<SeedEntry>, nextId: nat, now: Timestamp)
    requires entries != [] && DistinctNames(entries)
    requires forall e :: e in entries ==> CountNamed(cats, user, e.name) == 0
    ensures DistinctNames(entries[1..])
    ensures forall e :: e in entries[1..] ==> CountNamed(cats + [SeedCategory(nextId, user, entries[0], now)], user, e.name) == 0
  {
    var c := SeedCategory(nextId, user, entries[0], now);
    var rest := entries[1..];
    forall e | e in rest ensures CountNamed(cats + [c], user, e.name) == 0 {
      var j :| 0 <= j < |rest| && rest[j] == e;
      assert entries[j + 1] == e;
      assert e in entries;
      CountNamedAppend(cats, [c], user, e.name);
      CountNamedOne(c, user, e.name);
    }
  }

  /** A user who has none of the names gets the whole catalog, in catalog order. */
  lemma {:induction false} SeedFresh(cats: seq<Category>, user: UserId, entries: seq<SeedEntry>, nextId: nat, now: Timestamp)
    requires DistinctNames(entries)
    requires forall e :: e in entries ==> CountNamed(cats, user, e.name) == 0
    ensures Seed(cats, user, entries, nextId, now)
         == SeedResult(cats + SeedAll(entries, user, nextId, now), nextId + |entries|, true)
    decreases |entries|
  {
    if entries != [] {
      StillMissing(cats, user, entries, nextId, now);
      SeedFresh(cats + [SeedCategory(nextId, user, entries[0], now)], user, entries[1..], nextId + 1, now);
      SeedFreshStep(cats, user, entries, nextId, now);
    }
  }

  lemma SeedFreshStep(cats: seq<Category>, user: UserId, entries: seq<SeedEntry>, nextId: nat, now: Timestamp)
    requires entries != [] && CountNamed(cats, user, entries[0].name) == 0
    requires var c := SeedCategory(nextId, user, entries[0], now);
             Seed(cats + [c], user, entries[1..], nextId + 1, now)
             == SeedResult(cats + [c] + SeedAll(entries[1..], user, nextId + 1, now), nextId + 1 + |entries[1..]|, true)
    ensures Seed(cats, user, entries, nextId, now)
         == SeedResult(cats + SeedAll(entries, user, nextId, now), nextId + |entries|, true)
  {
    var c := SeedCategory(nextId, user, entries[0], now);
    var tail := SeedAll(entries[1..], user, nextId + 1, now);
    assert SeedAll(entries, user, nextId, now) == [c] + tail;
    assert (cats + [c]) + tail == cats + ([c] + tail);
  }
}
