/**
 * The database as one mutable object: four tables and their id counters.
 * Each controller action is a method that performs the source's writes in
 * order (insert, stock change, log entry, delete) and is proved to leave the
 * same result and state as the action's function.
 */
module Inventory {
  import opened Wrappers
  import opened Records
  import Transactions
  import Products
  import Categories

  /** Looks a row up by primary key (`find`), scanning the table in id order. */
  method Find<T>(s: seq<T>, key: T -> nat, id: nat) returns (r: Option<nat>)
    ensures r == IndexOf(s, key, id)
  {
    var i := 0;
    while i < |s|
      invariant 0 <= i <= |s|
      invariant forall j :: 0 <= j < i ==> key(s[j]) != id
    {
      if key(s[i]) == id {
        IndexOfFirst(s, key, id, i);
        return Some(i);
      }
      i := i + 1;
    }
    return None;
  }

  class Database {
    var categories: seq<Category>
    var products: seq<Product>
    var transactions: seq<Transaction>
    var logs: seq<LogEntry>
    var nextCategoryId: nat
    var nextProductId: nat
    var nextTransactionId: nat
    var nextLogId: nat

    /** The tables and counters as a value. */
    function State(): Db
      reads this
    {
      Db(categories, products, transactions, logs, nextCategoryId, nextProductId, nextTransactionId, nextLogId)
    }

    ghost predicate Valid()
      reads this
    {
      Wf(State())
    }

    /** A freshly migrated database: empty tables, every id sequence at 1. */
    constructor ()
      ensures Valid() && State() == EmptyDb()
    {
      categories := [];
      products := [];
      transactions := [];
      logs := [];
      nextCategoryId := 1;
      nextProductId := 1;
      nextTransactionId := 1;
      nextLogId := 1;
      new;
      assert State() == EmptyDb();
      EmptyDbWf();
    }

    /** `ActivityLog::create`: appends one entry under the next log id. */
    method AppendLog(userId: nat, action: Action, model: ModelType, modelId: nat, description: string, now: nat)
      modifies this
      ensures logs == old(logs) + [LogEntry(old(nextLogId), userId, action, model, modelId, description, now)]
      ensures nextLogId == old(nextLogId) + 1
      ensures categories == old(categories) && products == old(products) && transactions == old(transactions)
      ensures nextCategoryId == old(nextCategoryId) && nextProductId == old(nextProductId)
      ensures nextTransactionId == old(nextTransactionId)
    {
      logs := logs + [LogEntry(nextLogId, userId, action, model, modelId, description, now)];
      nextLogId := nextLogId + 1;
    }

    /** TransactionController::store */
    method StoreTransaction(req: Transactions.StoreRequest, userId: nat, now: nat) returns (r: Result<nat, Error>)
      requires Valid()
      modifies this
      ensures Valid()
      ensures Outcome(r, State()) == Transactions.Store(old(State()), req, userId, now)
    {
      ghost var expected := Transactions.Store(State(), req, userId, now);
      var errs := Transactions.StoreErrors(State(), req);
      if errs != {} {
        return Failure(Invalid(errs));
      }
      var i := Find(products, ProductKey, req.productId.value);
      var p := products[i.value];
      var k := ParseType(req.kind.value).value;
      var q := req.quantity.value as nat;
      if k == Out && p.stock < q {
        assert expected.result == Failure(InsufficientStock(p.stock));
        return Failure(InsufficientStock(p.stock));
      }
      assert expected.result == Success(nextTransactionId);
      var t := Transaction(nextTransactionId, p.id, userId, k, q, req.notes, now);
      transactions := transactions + [t];
      nextTransactionId := nextTransactionId + 1;
      products := products[i.value := p.(stock := Transactions.Moved(p.stock, k, q))];
      AppendLog(userId, Create, TransactionModel, t.id, Transactions.StoreDescription(k, p.name, q), now);
      r := Success(t.id);
    }

    /** TransactionController::destroy */
    method DestroyTransaction(id: nat, userId: nat, now: nat) returns (r: Result<(), Error>)
      requires Valid()
      modifies this
      ensures Valid()
      ensures Outcome(r, State()) == Transactions.Destroy(old(State()), id, userId, now)
    {
      ghost var expected := Transactions.Destroy(State(), id, userId, now);
      var j := Find(transactions, TransactionKey, id);
      if j.None? {
        return Failure(NotFound);
      }
      var t := transactions[j.value];
      var i := Find(products, ProductKey, t.productId);
      if i.None? {
        assert expected.result == Failure(Aborted);
        return Failure(Aborted);
      }
      assert expected.result == Success(());
      var p := products[i.value];
      products := products[i.value := p.(stock := Transactions.Reversed(p.stock, t.kind, t.quantity))];
      AppendLog(userId, Delete, TransactionModel, id, Transactions.DestroyDescription(t.kind, p.name), now);
      transactions := RemoveAt(transactions, j.value);
      r := Success(());
    }

    /** ProductController::store */
    method StoreProduct(form: Products.ProductForm, userId: nat, now: nat) returns (r: Result<nat, Error>)
      requires Valid()
      modifies this
      ensures Valid()
      ensures Outcome(r, State()) == Products.Store(old(State()), form, userId, now)
    {
      var errs := Products.FormErrors(State(), form);
      if errs != {} {
        return Failure(Invalid(errs));
      }
      var p := Products.FromForm(nextProductId, form, now);
      products := products + [p];
      nextProductId := nextProductId + 1;
      AppendLog(userId, Create, ProductModel, p.id, "Membuat produk: " + p.name, now);
      r := Success(p.id);
    }

    /** ProductController::update */
    method UpdateProduct(id: nat, form: Products.ProductForm, userId: nat, now: nat) returns (r: Result<(), Error>)
      requires Valid()
      modifies this
      ensures Valid()
      ensures Outcome(r, State()) == Products.Update(old(State()), id, form, userId, now)
    {
      var i := Find(products, ProductKey, id);
      if i.None? {
        return Failure(NotFound);
      }
      var errs := Products.FormErrors(State(), form);
      if errs != {} {
        return Failure(Invalid(errs));
      }
      var p := Products.FromForm(id, form, products[i.value].createdAt);
      products := products[i.value := p];
      AppendLog(userId, Action.Update, ProductModel, id, "Mengubah produk: " + p.name, now);
      r := Success(());
    }

    /** ProductController::destroy */
    method DestroyProduct(id: nat, userId: nat, now: nat) returns (r: Result<(), Error>)
      requires Valid()
      modifies this
      ensures Valid()
      ensures Outcome(r, State()) == Products.Destroy(old(State()), id, userId, now)
    {
      var i := Find(products, ProductKey, id);
      if i.None? {
        return Failure(NotFound);
      }
      var name := products[i.value].name;
      AppendLog(userId, Delete, ProductModel, id, "Menghapus produk: " + name, now);
      products := products[..i.value] + products[i.value + 1..];
      r := Success(());
    }

    /** CategoryController::store */
    method StoreCategory(form: Categories.CategoryForm, userId: nat, now: nat) returns (r: Result<nat, Error>)
      requires Valid()
      modifies this
      ensures Valid()
      ensures Outcome(r, State()) == Categories.Store(old(State()), form, userId, now)
    {
      var errs := Categories.FormErrors(State(), form, None);
      if errs != {} {
        return Failure(Invalid(errs));
      }
      var c := Category(nextCategoryId, form.name.value, form.description, now);
      categories := categories + [c];
      nextCategoryId := nextCategoryId + 1;
      AppendLog(userId, Create, CategoryModel, c.id, "Membuat kategori: " + c.name, now);
      r := Success(c.id);
    }

    /** CategoryController::update */
    method UpdateCategory(id: nat, form: Categories.CategoryForm, userId: nat, now: nat) returns (r: Result<(), Error>)
      requires Valid()
      modifies this
      ensures Valid()
      ensures Outcome(r, State()) == Categories.Update(old(State()), id, form, userId, now)
    {
      var i := Find(categories, CategoryKey, id);
      if i.None? {
        return Failure(NotFound);
      }
      var errs := Categories.FormErrors(State(), form, Some(id));
      if errs != {} {
        return Failure(Invalid(errs));
      }
      var c := categories[i.value].(name := form.name.value, description := form.description);
      categories := categories[i.value := c];
      AppendLog(userId, Action.Update, CategoryModel, id, "Mengubah kategori: " + c.name, now);
      r := Success(());
    }

    /** CategoryController::destroy */
    method DestroyCategory(id: nat, userId: nat, now: nat) returns (r: Result<(), Error>)
      requires Valid()
      modifies this
      ensures Valid()
      ensures Outcome(r, State()) == Categories.Destroy(old(State()), id, userId, now)
    {
      var i := Find(categories, CategoryKey, id);
      if i.None? {
        return Failure(NotFound);
      }
      var name := categories[i.value].name;
      AppendLog(userId, Delete, CategoryModel, id, "Menghapus kategori: " + name, now);
      categories := categories[..i.value] + categories[i.value + 1..];
      r := Success(());
    }
  }
}
