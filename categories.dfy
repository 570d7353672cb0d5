/**
 * CategoryController: `store`, `update` and `destroy` with the unique-name
 * rule and one audit entry each, and the `products_count` the list shows.
 */
module Categories {
  import opened Wrappers
  import opened Records
  import Query
  import Selection
  import Products

  datatype CategoryForm = CategoryForm(name: Option<string>, description: Option<string>)

  /** Some category other than `except` already has this name (the `unique:categories` rule). */
  predicate NameTaken(cs: seq<Category>, name: string, except: Option<nat>) {
    exists i :: 0 <= i < |cs| && cs[i].name == name && (except.None? || cs[i].id != except.value)
  }

  /**
   * name: required, a string of at most 255 characters, not the name of another
   * category; on update (`except` = the category's id) its own current name is allowed.
   */
  function FormErrors(db: Db, form: CategoryForm, except: Option<nat>): (errs: set<Field>)
    ensures errs == {} || errs == {Name}
    ensures errs == {} <==> Products.ValidName(form.name) && !NameTaken(db.categories, form.name.value, except)
  {
    if Products.ValidName(form.name) && !NameTaken(db.categories, form.name.value, except) then {} else {Name}
  }

  /** Category names are pairwise distinct. */
  ghost predicate NamesDistinct(cs: seq<Category>) {
    forall i, j :: 0 <= i < j < |cs| ==> cs[i].name != cs[j].name
  }

  /** On update a category may keep its own name: no other category holds it. */
  lemma KeepOwnName(db: Db, id: nat, form: CategoryForm)
    requires NamesDistinct(db.categories) && HasCategory(db, id)
    requires Products.ValidName(form.name) && form.name.value == db.categories[CategoryIndex(db, id).value].name
    ensures FormErrors(db, form, Some(id)) == {}
  {
  }

  /** `store`: validate, insert the category, append one `create` entry. */
  function Store(db: Db, form: CategoryForm, userId: nat, now: nat): (out: Outcome<nat>)
    requires Wf(db)
    ensures Wf(out.db)
    ensures out.result.Success? <==> FormErrors(db, form, None) == {}
    ensures out.result.Failure? ==> out.result == Failure(Invalid({Name})) && out.db == db
    ensures out.result.Success? ==>
              var c := Category(db.nextCategoryId, form.name.value, form.description, now);
              && out.result == Success(c.id)
              && out.db == db.(categories := db.categories + [c],
                               logs := db.logs + [LogEntry(db.nextLogId, userId, Create, CategoryModel, c.id,
                                                           "Membuat kategori: " + c.name, now)],
                               nextCategoryId := db.nextCategoryId + 1,
                               nextLogId := db.nextLogId + 1)
    ensures NamesDistinct(db.categories) ==> NamesDistinct(out.db.categories)
  {
    var errs := FormErrors(db, form, None);
    if errs != {} then Outcome(Failure(Invalid(errs)), db)
    else
      var c := Category(db.nextCategoryId, form.name.value, form.description, now);
      var e := LogEntry(db.nextLogId, userId, Create, CategoryModel, c.id, "Membuat kategori: " + c.name, now);
      AppendAscending(db.categories, CategoryKey, db.nextCategoryId, c);
      AppendAscending(db.logs, LogKey, db.nextLogId, e);
      var cs := db.categories + [c];
      assert NamesDistinct(db.categories) ==> NamesDistinct(cs) by {
        if NamesDistinct(db.categories) {
          forall i, j | 0 <= i < j < |cs| ensures cs[i].name != cs[j].name {
            if j == |db.categories| {
              assert cs[i] == db.categories[i];
            }
          }
        }
      }
      Outcome(Success(c.id),
              db.(categories := cs, logs := db.logs + [e],
                  nextCategoryId := db.nextCategoryId + 1, nextLogId := db.nextLogId + 1))
  }

  /** `update`: the category must exist; validate (its own name allowed); overwrite; append one `update` entry. */
  function Update(db: Db, id: nat, form: CategoryForm, userId: nat, now: nat): (out: Outcome<()>)
    requires Wf(db)
    ensures Wf(out.db)
    ensures out.result.Failure? ==> out.db == db
    ensures !HasCategory(db, id) ==> out.result == Failure(NotFound)
    ensures HasCategory(db, id) ==>
              if FormErrors(db, form, Some(id)) == {} then out.result.Success? else out.result == Failure(Invalid({Name}))
    ensures out.result.Success? ==>
              var i := CategoryIndex(db, id).value;
              var c := db.categories[i].(name := form.name.value, description := form.description);
              out.db == db.(categories := db.categories[i := c],
                            logs := db.logs + [LogEntry(db.nextLogId, userId, Action.Update, CategoryModel, id,
                                                        "Mengubah kategori: " + c.name, now)],
                            nextLogId := db.nextLogId + 1)
    ensures NamesDistinct(db.categories) ==> NamesDistinct(out.db.categories)
  {
    match CategoryIndex(db, id)
    case None => Outcome(Failure(NotFound), db)
    case Some(i) =>
      var errs := FormErrors(db, form, Some(id));
      if errs != {} then Outcome(Failure(Invalid(errs)), db)
      else
        var c := db.categories[i].(name := form.name.value, description := form.description);
        var e := LogEntry(db.nextLogId, userId, Action.Update, CategoryModel, id, "Mengubah kategori: " + c.name, now);
        AppendAscending(db.logs, LogKey, db.nextLogId, e);
        var cs := db.categories[i := c];
        RenameKeepsNamesDistinct(db, i, form.name.value);
        Outcome(Success(()), db.(categories := cs, logs := db.logs + [e], nextLogId := db.nextLogId + 1))
  }

  /** Giving category i a name no other category holds keeps the names distinct. */
  lemma RenameKeepsNamesDistinct(db: Db, i: nat, name: string)
    requires Wf(db) && i < |db.categories|
    requires !NameTaken(db.categories, name, Some(db.categories[i].id))
    ensures NamesDistinct(db.categories) ==> NamesDistinct(db.categories[i := db.categories[i].(name := name)])
  {
    var cs := db.categories;
    var cs' := cs[i := cs[i].(name := name)];
    if NamesDistinct(cs) {
      forall a, b | 0 <= a < b < |cs'| ensures cs'[a].name != cs'[b].name {
        if a == i {
          assert cs[b].id != cs[i].id;
        } else if b == i {
          assert cs[a].id != cs[i].id;
        }
      }
    }
  }

  /** `destroy`: the category must exist; append one `delete` entry, then delete the row. */
  function Destroy(db: Db, id: nat, userId: nat, now: nat): (out: Outcome<()>)
    requires Wf(db)
    ensures Wf(out.db)
    ensures out.result.Failure? ==> out.db == db
    ensures out.result.Success? <==> HasCategory(db, id)
    ensures !HasCategory(db, id) ==> out.result == Failure(NotFound)
    ensures out.result.Success? ==>
              var i := CategoryIndex(db, id).value;
              out.db == db.(categories := RemoveAt(db.categories, i),
                            logs := db.logs + [LogEntry(db.nextLogId, userId, Delete, CategoryModel, id,
                                                        "Menghapus kategori: " + db.categories[i].name, now)],
                            nextLogId := db.nextLogId + 1)
    ensures out.result.Success? ==> !HasCategory(out.db, id)
  {
    match CategoryIndex(db, id)
    case None => Outcome(Failure(NotFound), db)
    case Some(i) =>
      var e := LogEntry(db.nextLogId, userId, Delete, CategoryModel, id, "Menghapus kategori: " + db.categories[i].name, now);
      AppendAscending(db.logs, LogKey, db.nextLogId, e);
      RemoveAscending(db.categories, CategoryKey, db.nextCategoryId, i);
      var after := db.(categories := RemoveAt(db.categories, i), logs := db.logs + [e], nextLogId := db.nextLogId + 1);
      assert !HasCategory(after, id) by {
        forall a | 0 <= a < |after.categories| ensures after.categories[a].id != id {
          var a' := if a < i then a else a + 1;
          assert after.categories[a] == db.categories[a'] && a' != i;
        }
      }
      Outcome(Success(()), after)
  }

  // ----------------------------------------------------------------- index

  /** `withCount('products')`: the number of products whose category_id is the category's id. */
  function ProductsCount(ps: seq<Product>, id: nat): nat {
    if ps == [] then 0 else (if ps[0].categoryId == id then 1 else 0) + ProductsCount(ps[1..], id)
  }

  /** The count the category list shows is the length of the product list filtered by that category. */
  lemma {:induction false} ProductsCountIsFilteredList(ps: seq<Product>, id: nat)
    ensures ProductsCount(ps, id) == |Query.Run(ps, Products.Holds, [Products.InCategory(id)])|
  {
    var q := [Products.InCategory(id)];
    Query.RunIsWhereAll(ps, Products.Holds, q);
    WhereAllCount(ps, id);
  }

  lemma {:induction false} WhereAllCount(ps: seq<Product>, id: nat)
    ensures ProductsCount(ps, id) == |Query.WhereAll(ps, Products.Holds, [Products.InCategory(id)])|
  {
    if ps != [] {
      WhereAllCount(ps[1..], id);
      Query.AllHoldSingle(Products.Holds, [Products.InCategory(id)], ps[0]);
    }
  }

  /** `latest()`: newest `created_at` first. */
  function Recency(c: Category): int { -(c.createdAt as int) }

  /** One page (10 rows) of the category list, newest first, each with its products_count. */
  function Index(db: Db, page: nat): (r: seq<(Category, nat)>)
    ensures |r| <= 10
    ensures forall k :: 0 <= k < |r| ==> r[k].0 in db.categories && r[k].1 == ProductsCount(db.products, r[k].0.id)
  {
    var rows := Selection.Page(Selection.SortBy(db.categories, Recency), page, 10);
    seq(|rows|, k requires 0 <= k < |rows| => (rows[k], ProductsCount(db.products, rows[k].id)))
  }
}
