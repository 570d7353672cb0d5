/**
 * ProductController: the product list filters (`index`) and the three
 * catalogue writes `store`, `update` and `destroy`, each with its audit entry.
 * Image upload and deletion are file-system work and are not modelled.
 */
module Products {
  import opened Wrappers
  import opened Records
  import Query
  import Selection
  import Transactions

  // ------------------------------------------------------------ validation

  /** The submitted form: each value is None when missing or not of the required type. */
  datatype ProductForm = ProductForm(categoryId: Option<nat>, name: Option<string>, description: Option<string>,
                                     stock: Option<int>, price: Option<int>)

  /** `max:255` on a required string; input arrives trimmed and "" as null. */
  predicate ValidName(name: Option<string>) {
    name.Some? && name.value != "" && |name.value| <= 255
  }

  /**
   * The rules shared by `store` and `update`: category_id an existing category,
   * name present and at most 255 characters, stock an integer of at least 0,
   * price a number of at least 0. Every failing key is reported.
   */
  function FormErrors(db: Db, form: ProductForm): (errs: set<Field>)
    ensures CategoryId in errs <==> form.categoryId.None? || !HasCategory(db, form.categoryId.value)
    ensures Name in errs <==> !ValidName(form.name)
    ensures Stock in errs <==> form.stock.None? || form.stock.value < 0
    ensures Price in errs <==> form.price.None? || form.price.value < 0
    ensures errs <= {CategoryId, Name, Stock, Price}
  {
    (if form.categoryId.Some? && HasCategory(db, form.categoryId.value) then {} else {CategoryId})
    + (if ValidName(form.name) then {} else {Name})
    + (if form.stock.Some? && form.stock.value >= 0 then {} else {Stock})
    + (if form.price.Some? && form.price.value >= 0 then {} else {Price})
  }

  /** The product row a valid form describes. */
  function FromForm(id: nat, form: ProductForm, createdAt: nat): Product
    requires form.categoryId.Some? && form.name.Some? && form.stock.Some? && form.price.Some? && form.price.value >= 0
  {
    Product(id, form.categoryId.value, form.name.value, form.description, form.stock.value,
            form.price.value as nat, createdAt)
  }

  // ---------------------------------------------------------------- writes

  /** `store`: validate, insert the product, append one `create` entry naming it. */
  function Store(db: Db, form: ProductForm, userId: nat, now: nat): (out: Outcome<nat>)
    requires Wf(db)
    ensures Wf(out.db)
    ensures out.result.Success? <==> FormErrors(db, form) == {}
    ensures out.result.Failure? ==> out.result == Failure(Invalid(FormErrors(db, form))) && out.db == db
    ensures out.result.Success? ==>
              var p := FromForm(db.nextProductId, form, now);
              && out.result == Success(p.id)
              && out.db == db.(products := db.products + [p],
                               logs := db.logs + [LogEntry(db.nextLogId, userId, Create, ProductModel, p.id,
                                                           "Membuat produk: " + p.name, now)],
                               nextProductId := db.nextProductId + 1,
                               nextLogId := db.nextLogId + 1)
    ensures out.result.Success? ==> HasProduct(out.db, out.result.value) && !HasProduct(db, out.result.value)
  {
    var errs := FormErrors(db, form);
    if errs != {} then Outcome(Failure(Invalid(errs)), db)
    else
      var p := FromForm(db.nextProductId, form, now);
      var e := LogEntry(db.nextLogId, userId, Create, ProductModel, p.id, "Membuat produk: " + p.name, now);
      AppendAscending(db.products, ProductKey, db.nextProductId, p);
      AppendAscending(db.logs, LogKey, db.nextLogId, e);
      var after := db.(products := db.products + [p], logs := db.logs + [e],
                       nextProductId := db.nextProductId + 1, nextLogId := db.nextLogId + 1);
      IndexOfRow(after.products, ProductKey, after.nextProductId, |db.products|);
      Outcome(Success(p.id), after)
  }

  /**
   * `update`: the product must exist (404 otherwise); validate; overwrite every
   * column from the form, the stock included, whatever the transactions say;
   * append one `update` entry carrying the new name.
   */
  function Update(db: Db, id: nat, form: ProductForm, userId: nat, now: nat): (out: Outcome<()>)
    requires Wf(db)
    ensures Wf(out.db)
    ensures out.result.Failure? ==> out.db == db
    ensures !HasProduct(db, id) ==> out.result == Failure(NotFound)
    ensures HasProduct(db, id) ==>
              if FormErrors(db, form) == {} then out.result.Success? else out.result == Failure(Invalid(FormErrors(db, form)))
    ensures out.result.Success? ==>
              var i := ProductIndex(db, id).value;
              var p := FromForm(id, form, db.products[i].createdAt);
              out.db == db.(products := db.products[i := p],
                            logs := db.logs + [LogEntry(db.nextLogId, userId, Action.Update, ProductModel, id,
                                                        "Mengubah produk: " + p.name, now)],
                            nextLogId := db.nextLogId + 1)
    ensures out.result.Success? ==> HasProduct(out.db, id) && out.db.products[ProductIndex(out.db, id).value].stock == form.stock.value
  {
    match ProductIndex(db, id)
    case None => Outcome(Failure(NotFound), db)
    case Some(i) =>
      var errs := FormErrors(db, form);
      if errs != {} then Outcome(Failure(Invalid(errs)), db)
      else
        var p := FromForm(id, form, db.products[i].createdAt);
        var e := LogEntry(db.nextLogId, userId, Action.Update, ProductModel, id, "Mengubah produk: " + p.name, now);
        AppendAscending(db.logs, LogKey, db.nextLogId, e);
        var after := db.(products := db.products[i := p], logs := db.logs + [e], nextLogId := db.nextLogId + 1);
        IndexOfRow(after.products, ProductKey, after.nextProductId, i);
        Outcome(Success(()), after)
  }

  /** `destroy`: the product must exist; append one `delete` entry (written before the row goes), delete it. */
  function Destroy(db: Db, id: nat, userId: nat, now: nat): (out: Outcome<()>)
    requires Wf(db)
    ensures Wf(out.db)
    ensures out.result.Failure? ==> out.db == db
    ensures out.result.Success? <==> HasProduct(db, id)
    ensures !HasProduct(db, id) ==> out.result == Failure(NotFound)
    ensures out.result.Success? ==>
              var i := ProductIndex(db, id).value;
              out.db == db.(products := RemoveAt(db.products, i),
                            logs := db.logs + [LogEntry(db.nextLogId, userId, Delete, ProductModel, id,
                                                        "Menghapus produk: " + db.products[i].name, now)],
                            nextLogId := db.nextLogId + 1)
    ensures out.result.Success? ==> !HasProduct(out.db, id)
  {
    match ProductIndex(db, id)
    case None => Outcome(Failure(NotFound), db)
    case Some(i) =>
      var e := LogEntry(db.nextLogId, userId, Delete, ProductModel, id, "Menghapus produk: " + db.products[i].name, now);
      AppendAscending(db.logs, LogKey, db.nextLogId, e);
      RemoveAscending(db.products, ProductKey, db.nextProductId, i);
      var after := db.(products := RemoveAt(db.products, i), logs := db.logs + [e], nextLogId := db.nextLogId + 1);
      assert !HasProduct(after, id) by {
        forall a | 0 <= a < |after.products| ensures after.products[a].id != id {
          var a' := if a < i then a else a + 1;
          assert after.products[a] == db.products[a'] && a' != i;
        }
      }
      Outcome(Success(()), after)
  }

  /**
   * `update` sets the stock to the submitted value whatever the recorded
   * movements say, so it moves the product's ledger balance by the difference;
   * every other product's balance stays as it was.
   */
  lemma UpdateShiftsBalance(db: Db, id: nat, form: ProductForm, userId: nat, now: nat, pid: nat)
    requires Wf(db) && HasProduct(db, pid)
    ensures var out := Update(db, id, form, userId, now);
            && HasProduct(out.db, pid)
            && Transactions.Balance(out.db, pid) == Transactions.Balance(db, pid)
               + (if out.result.Success? && pid == id then form.stock.value - Transactions.StockOf(db, pid) else 0)
  {
    var out := Update(db, id, form, userId, now);
    if out.result.Success? {
      Transactions.ProductIndexKept(db, out.db, pid);
      if pid != id {
        assert db.products[ProductIndex(db, pid).value].id != db.products[ProductIndex(db, id).value].id;
      }
    }
  }

  /**
   * Why stock can go negative: a product received 5 units, its stock was then
   * set to 0 through the form, and deleting the receipt takes 5 units off again.
   */
  lemma OverwriteThenReverseGoesNegative()
    ensures var db := Db([Category(1, "Alat", None, 0)], [Product(1, 1, "Obeng", None, 5, 0, 0)],
                         [Transaction(1, 1, 1, In, 5, None, 0)], [], 2, 2, 2, 1);
            var u := Update(db, 1, ProductForm(Some(1), Some("Obeng"), None, Some(0), Some(0)), 1, 1);
            var d := Transactions.Destroy(u.db, 1, 1, 2);
            && u.result.Success? && d.result.Success?
            && d.db.products[0].stock == -5
  {
    var db := Db([Category(1, "Alat", None, 0)], [Product(1, 1, "Obeng", None, 5, 0, 0)],
                 [Transaction(1, 1, 1, In, 5, None, 0)], [], 2, 2, 2, 1);
    assert Wf(db);
    var form := ProductForm(Some(1), Some("Obeng"), None, Some(0), Some(0));
    assert HasCategory(db, 1) && HasProduct(db, 1);
    var u := Update(db, 1, form, 1, 1);
    assert u.db.products == [Product(1, 1, "Obeng", None, 0, 0, 0)];
    assert HasTransaction(u.db, 1) && HasProduct(u.db, 1);
  }

  // ----------------------------------------------------------------- index

  /** The list filters: a search term, a category and a stock tier, each a raw request value. */
  datatype ProductFilter = ProductFilter(search: Option<string>, category: Option<nat>, stock: Option<string>)

  /** The `where` clauses `index` adds to a product query. */
  datatype Clause = NameLike(term: string) | InCategory(id: nat) | StockAtMost(n: int) | StockAbove(n: int) | StockIs(n: int)

  /** `name LIKE %term%` as plain substring containment. */
  predicate Contains(text: string, term: string) {
    exists i :: 0 <= i <= |text| - |term| && term <= text[i..]
  }

  function Holds(c: Clause, p: Product): bool {
    match c
    case NameLike(term) => Contains(p.name, term)
    case InCategory(id) => p.categoryId == id
    case StockAtMost(n) => p.stock <= n
    case StockAbove(n) => p.stock > n
    case StockIs(n) => p.stock == n
  }

  datatype Tier = OutOfStock | Low | Available

  /** The three recognised values of the `stock` filter. */
  function ParseTier(s: string): Option<Tier> {
    if s == "low" then Some(Low)
    else if s == "out" then Some(OutOfStock)
    else if s == "available" then Some(Available)
    else None
  }

  /** The clauses each stock filter adds: low is 1..10, out is 0, available is above 10. */
  function TierClauses(t: Tier): seq<Clause> {
    match t
    case Low => [StockAtMost(10), StockAbove(0)]
    case OutOfStock => [StockIs(0)]
    case Available => [StockAbove(10)]
  }

  /** The tier a stock level belongs to; a negative stock belongs to none. */
  function TierOf(stock: int): Option<Tier> {
    if stock < 0 then None
    else if stock == 0 then Some(OutOfStock)
    else if stock <= 10 then Some(Low)
    else Some(Available)
  }

  /** Each tier's clauses keep exactly the products of that tier. */
  lemma TierClausesMeaning(t: Tier, p: Product)
    ensures Query.AllHold(Holds, TierClauses(t), p) <==> TierOf(p.stock) == Some(t)
  {
    match t
    case Low =>
      assert Query.AllHold(Holds, TierClauses(t), p) <==> Holds(StockAtMost(10), p) && Holds(StockAbove(0), p) by {
        Query.AllHoldSnoc(Holds, [StockAtMost(10)], StockAbove(0), p);
        assert [StockAtMost(10)] + [StockAbove(0)] == TierClauses(t);
        Query.AllHoldSingle(Holds, [StockAtMost(10)], p);
      }
    case OutOfStock => Query.AllHoldSingle(Holds, TierClauses(t), p);
    case Available => Query.AllHoldSingle(Holds, TierClauses(t), p);
  }

  /** For a non-negative stock exactly one of the three stock filters keeps the product. */
  lemma TiersPartition(p: Product)
    requires p.stock >= 0
    ensures (if Query.AllHold(Holds, TierClauses(OutOfStock), p) then 1 else 0)
          + (if Query.AllHold(Holds, TierClauses(Low), p) then 1 else 0)
          + (if Query.AllHold(Holds, TierClauses(Available), p) then 1 else 0) == 1
  {
    TierClausesMeaning(OutOfStock, p);
    TierClausesMeaning(Low, p);
    TierClausesMeaning(Available, p);
  }

  /** The clauses of the `stock` filter: none when it is empty or not one of the three values. */
  function StockClauses(stock: Option<string>): seq<Clause> {
    if Filled(stock) && ParseTier(stock.value).Some? then TierClauses(ParseTier(stock.value).value) else []
  }

  /** The query `index` builds: search, then category, then stock, each only when filled. */
  function IndexQuery(f: ProductFilter): seq<Clause> {
    (if Filled(f.search) then [NameLike(f.search.value)] else [])
    + (if f.category.Some? then [InCategory(f.category.value)] else [])
    + StockClauses(f.stock)
  }

  /** The filter as a condition on one product. */
  predicate Matches(p: Product, f: ProductFilter) {
    && (Filled(f.search) ==> Contains(p.name, f.search.value))
    && (f.category.Some? ==> p.categoryId == f.category.value)
    && (Filled(f.stock) && ParseTier(f.stock.value).Some? ==> TierOf(p.stock) == ParseTier(f.stock.value))
  }

  lemma IndexQueryMeaning(f: ProductFilter, p: Product)
    ensures Query.AllHold(Holds, IndexQuery(f), p) <==> Matches(p, f)
  {
    var a := if Filled(f.search) then [NameLike(f.search.value)] else [];
    var b := if f.category.Some? then [InCategory(f.category.value)] else [];
    var c := StockClauses(f.stock);
    Query.AllHoldAppend(Holds, a + b, c, p);
    Query.AllHoldAppend(Holds, a, b, p);
    Query.AllHoldSingle(Holds, a, p);
    Query.AllHoldSingle(Holds, b, p);
    if Filled(f.stock) && ParseTier(f.stock.value).Some? {
      TierClausesMeaning(ParseTier(f.stock.value).value, p);
    }
  }

  /** `latest()`: newest `created_at` first. */
  function Recency(p: Product): int { -(p.createdAt as int) }

  /** One page (10 rows) of the product list, newest first. */
  function Index(ps: seq<Product>, f: ProductFilter, page: nat): (r: seq<Product>)
    ensures |r| <= 10
    ensures forall p :: p in r ==> p in ps && Matches(p, f)
  {
    var rows := Query.Run(ps, Holds, IndexQuery(f));
    assert forall p :: p in rows ==> p in ps && Matches(p, f) by {
      forall p | p in rows ensures p in ps && Matches(p, f) { IndexQueryMeaning(f, p); }
    }
    var sorted := Selection.SortBy(rows, Recency);
    var r := Selection.Page(sorted, page, 10);
    r
  }
}
