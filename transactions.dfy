/**
 * TransactionController: recording a stock movement (`store`), reversing and
 * deleting one (`destroy`), and the filter of the transaction list (`index`).
 * Each action is a function from the database before to its result and the
 * database after; `Inventory.Database` performs the same writes step by step.
 */
module Transactions {
  import opened Wrappers
  import opened Records
  import Query
  import Selection

  // ---------------------------------------------------------------- store

  /** The submitted form: each value is None when missing or not of the required type. */
  datatype StoreRequest = StoreRequest(productId: Option<nat>, kind: Option<string>,
                                       quantity: Option<int>, notes: Option<string>)

  /**
   * The validation rules of `store`: product_id required and an existing product,
   * type required and one of `in`/`out`, quantity required, an integer, at least 1.
   * Every failing key is reported; notes is nullable and never fails.
   */
  function StoreErrors(db: Db, req: StoreRequest): (errs: set<Field>)
    ensures ProductId in errs <==> req.productId.None? || !HasProduct(db, req.productId.value)
    ensures Type in errs <==> req.kind.None? || ParseType(req.kind.value).None?
    ensures Quantity in errs <==> req.quantity.None? || req.quantity.value < 1
    ensures errs <= {ProductId, Type, Quantity}
  {
    (if req.productId.Some? && HasProduct(db, req.productId.value) then {} else {ProductId})
    + (if req.kind.Some? && ParseType(req.kind.value).Some? then {} else {Type})
    + (if req.quantity.Some? && req.quantity.value >= 1 then {} else {Quantity})
  }

  /** A valid request whose movement the current stock can cover. */
  predicate Accepted(db: Db, req: StoreRequest) {
    && StoreErrors(db, req) == {}
    && (ParseType(req.kind.value) == Some(In)
        || req.quantity.value <= db.products[ProductIndex(db, req.productId.value).value].stock)
  }

  /** The stock after applying a movement (`increment` / `decrement`). */
  function Moved(stock: int, k: MoveType, q: int): int {
    match k
    case In => stock + q
    case Out => stock - q
  }

  /** The stock after reversing a movement, as `destroy` does. */
  function Reversed(stock: int, k: MoveType, q: int): (r: int)
    ensures Moved(r, k, q) == stock
  {
    match k
    case In => stock - q
    case Out => stock + q
  }

  function StoreDescription(k: MoveType, name: string, q: nat): string {
    TypeLabel(k) + ": " + name + " (" + Decimal(q) + " unit)"
  }

  function DestroyDescription(k: MoveType, name: string): string {
    "Menghapus transaksi " + TypeLabel(k) + ": " + name
  }

  /**
   * `store`: validate, refuse a stock-out larger than the stock (error on `quantity`
   * carrying the available stock), otherwise insert the transaction, move the
   * product's stock and append one `create` log entry, as one unit.
   */
  function Store(db: Db, req: StoreRequest, userId: nat, now: nat): (out: Outcome<nat>)
    requires Wf(db)
    ensures Wf(out.db)
    ensures out.result.Success? <==> Accepted(db, req)
    ensures out.result.Failure? ==> out.db == db
    ensures StoreErrors(db, req) != {} ==> out.result == Failure(Invalid(StoreErrors(db, req)))
    ensures StoreErrors(db, req) == {} && !Accepted(db, req) ==>
              out.result == Failure(InsufficientStock(db.products[ProductIndex(db, req.productId.value).value].stock))
    ensures Accepted(db, req) ==>
              var i := ProductIndex(db, req.productId.value).value;
              var k := ParseType(req.kind.value).value;
              var q := req.quantity.value as nat;
              var t := Transaction(db.nextTransactionId, req.productId.value, userId, k, q, req.notes, now);
              && out.result == Success(t.id)
              && out.db == db.(products := db.products[i := db.products[i].(stock := Moved(db.products[i].stock, k, q))],
                               transactions := db.transactions + [t],
                               logs := db.logs + [LogEntry(db.nextLogId, userId, Create, TransactionModel, t.id,
                                                           StoreDescription(k, db.products[i].name, q), now)],
                               nextTransactionId := db.nextTransactionId + 1,
                               nextLogId := db.nextLogId + 1)
    ensures |out.db.products| == |db.products|
    ensures forall j :: 0 <= j < |db.products| && db.products[j].stock >= 0 ==> out.db.products[j].stock >= 0
  {
    var errs := StoreErrors(db, req);
    if errs != {} then Outcome(Failure(Invalid(errs)), db)
    else
      var i := ProductIndex(db, req.productId.value).value;
      var p := db.products[i];
      var k := ParseType(req.kind.value).value;
      var q := req.quantity.value as nat;
      if k == Out && p.stock < q then Outcome(Failure(InsufficientStock(p.stock)), db)
      else
        var t := Transaction(db.nextTransactionId, p.id, userId, k, q, req.notes, now);
        var e := LogEntry(db.nextLogId, userId, Create, TransactionModel, t.id, StoreDescription(k, p.name, q), now);
        AppendAscending(db.transactions, TransactionKey, db.nextTransactionId, t);
        AppendAscending(db.logs, LogKey, db.nextLogId, e);
        Outcome(Success(t.id),
                db.(products := db.products[i := p.(stock := Moved(p.stock, k, q))],
                    transactions := db.transactions + [t],
                    logs := db.logs + [e],
                    nextTransactionId := db.nextTransactionId + 1,
                    nextLogId := db.nextLogId + 1))
  }

  // -------------------------------------------------------------- destroy

  /**
   * `destroy`: reverse the movement's effect on its product's stock (no stock
   * check: reversing an `in` can leave the stock negative), append one `delete`
   * log entry and delete the transaction, as one unit. A transaction whose
   * product is gone makes the unit fail and roll back.
   */
  function Destroy(db: Db, id: nat, userId: nat, now: nat): (out: Outcome<()>)
    requires Wf(db)
    ensures Wf(out.db)
    ensures out.result.Failure? ==> out.db == db
    ensures !HasTransaction(db, id) ==> out.result == Failure(NotFound)
    ensures HasTransaction(db, id) ==>
              var t := db.transactions[TransactionIndex(db, id).value];
              && (out.result.Success? <==> HasProduct(db, t.productId))
              && (!HasProduct(db, t.productId) ==> out.result == Failure(Aborted))
    ensures out.result.Success? ==>
              var j := TransactionIndex(db, id).value;
              var t := db.transactions[j];
              var i := ProductIndex(db, t.productId).value;
              out.db == db.(products := db.products[i := db.products[i].(stock := Reversed(db.products[i].stock, t.kind, t.quantity))],
                            transactions := RemoveAt(db.transactions, j),
                            logs := db.logs + [LogEntry(db.nextLogId, userId, Delete, TransactionModel, id,
                                                        DestroyDescription(t.kind, db.products[i].name), now)],
                            nextLogId := db.nextLogId + 1)
    ensures out.result.Success? ==> !HasTransaction(out.db, id)
  {
    match TransactionIndex(db, id)
    case None => Outcome(Failure(NotFound), db)
    case Some(j) =>
      var t := db.transactions[j];
      match ProductIndex(db, t.productId)
      case None => Outcome(Failure(Aborted), db)
      case Some(i) =>
        var p := db.products[i];
        var e := LogEntry(db.nextLogId, userId, Delete, TransactionModel, id, DestroyDescription(t.kind, p.name), now);
        AppendAscending(db.logs, LogKey, db.nextLogId, e);
        RemoveAscending(db.transactions, TransactionKey, db.nextTransactionId, j);
        var after := db.(products := db.products[i := p.(stock := Reversed(p.stock, t.kind, t.quantity))],
                         transactions := RemoveAt(db.transactions, j),
                         logs := db.logs + [e],
                         nextLogId := db.nextLogId + 1);
        assert !HasTransaction(after, id) by {
          var ts := db.transactions;
          forall a | 0 <= a < |after.transactions| ensures after.transactions[a].id != id {
            var a' := if a < j then a else a + 1;
            assert after.transactions[a] == ts[a'];
            assert a' != j;
          }
        }
        Outcome(Success(()), after)
  }

  // --------------------------------------------------------------- ledger

  /** The signed effect of a movement on product pid's stock. */
  function Effect(t: Transaction, pid: nat): int {
    if t.productId != pid then 0 else Moved(0, t.kind, t.quantity)
  }

  /** The net stock movement recorded for product pid: in-quantities minus out-quantities. */
  function Net(ts: seq<Transaction>, pid: nat): int {
    if ts == [] then 0 else Net(ts[..|ts| - 1], pid) + Effect(ts[|ts| - 1], pid)
  }

  lemma {:induction false} NetAppend(a: seq<Transaction>, b: seq<Transaction>, pid: nat)
    ensures Net(a + b, pid) == Net(a, pid) + Net(b, pid)
    decreases |b|
  {
    if b == [] {
      assert a + b == a;
    } else {
      var b' := b[..|b| - 1];
      NetAppend(a, b', pid);
      assert (a + b)[..|a + b| - 1] == a + b';
      assert (a + b)[|a + b| - 1] == b[|b| - 1];
    }
  }

  function StockOf(db: Db, pid: nat): int
    requires HasProduct(db, pid)
  {
    db.products[ProductIndex(db, pid).value].stock
  }

  /**
   * The part of product pid's stock that the recorded movements do not explain.
   * Recording and reversing movements never change it; overwriting the stock
   * through the product form does.
   */
  function Balance(db: Db, pid: nat): int
    requires HasProduct(db, pid)
  {
    StockOf(db, pid) - Net(db.transactions, pid)
  }

  /** Rows keep their index when only the stock of one product changes. */
  lemma ProductIndexKept(db: Db, db': Db, pid: nat)
    requires Wf(db) && Wf(db') && HasProduct(db, pid)
    requires |db'.products| == |db.products|
    requires forall j :: 0 <= j < |db.products| ==> db'.products[j].id == db.products[j].id
    ensures ProductIndex(db', pid) == ProductIndex(db, pid)
  {
    var i := ProductIndex(db, pid).value;
    IndexOfRow(db'.products, ProductKey, db'.nextProductId, i);
  }

  lemma {:induction false} StoreKeepsBalance(db: Db, req: StoreRequest, userId: nat, now: nat, pid: nat)
    requires Wf(db) && HasProduct(db, pid)
    ensures var db' := Store(db, req, userId, now).db;
            HasProduct(db', pid) && Balance(db', pid) == Balance(db, pid)
  {
    var db' := Store(db, req, userId, now).db;
    if Accepted(db, req) {
      ProductIndexKept(db, db', pid);
      var t := db'.transactions[|db'.transactions| - 1];
      assert db'.transactions[..|db'.transactions| - 1] == db.transactions;
      var i := ProductIndex(db, req.productId.value).value;
      var i' := ProductIndex(db, pid).value;
      if i != i' {
        assert db.products[i'].id != db.products[i].id;
      }
    }
  }

  lemma {:induction false} DestroyKeepsBalance(db: Db, id: nat, userId: nat, now: nat, pid: nat)
    requires Wf(db) && HasProduct(db, pid)
    ensures var db' := Destroy(db, id, userId, now).db;
            HasProduct(db', pid) && Balance(db', pid) == Balance(db, pid)
  {
    var out := Destroy(db, id, userId, now);
    var db' := out.db;
    if out.result.Success? {
      ProductIndexKept(db, db', pid);
      var ts := db.transactions;
      var j := TransactionIndex(db, id).value;
      var t := ts[j];
      assert ts == ts[..j] + [t] + ts[j + 1..];
      NetAppend(ts[..j] + [t], ts[j + 1..], pid);
      NetAppend(ts[..j], [t], pid);
      NetAppend(ts[..j], ts[j + 1..], pid);
      assert Net([t], pid) == Effect(t, pid) by { assert [t][..0] == []; }
      var i := ProductIndex(db, t.productId).value;
      var i' := ProductIndex(db, pid).value;
      if i != i' {
        assert db.products[i'].id != db.products[i].id;
      }
    }
  }

  /**
   * Recording a movement and then deleting it restores the product table and
   * the transaction table exactly; the log keeps both entries.
   */
  lemma StoreThenDestroy(db: Db, req: StoreRequest, userId: nat, now: nat, userId': nat, now': nat)
    requires Wf(db) && Accepted(db, req)
    ensures var s := Store(db, req, userId, now);
            var d := Destroy(s.db, s.result.value, userId', now');
            && d.result.Success?
            && d.db.products == db.products
            && d.db.transactions == db.transactions
            && d.db.categories == db.categories
            && |d.db.logs| == |db.logs| + 2
            && d.db.logs[..|db.logs|] == db.logs
  {
    var s := Store(db, req, userId, now);
    var n := |db.transactions|;
    IndexOfRow(s.db.transactions, TransactionKey, s.db.nextTransactionId, n);
    var pid := req.productId.value;
    var i := ProductIndex(db, pid).value;
    ProductIndexKept(db, s.db, pid);
    var t := s.db.transactions[n];
    assert t.productId == pid;
    var d := Destroy(s.db, s.result.value, userId', now');
    assert d.result.Success?;
    var p := s.db.products[i];
    assert d.db.products == s.db.products[i := p.(stock := Reversed(p.stock, t.kind, t.quantity))];
    assert Reversed(p.stock, t.kind, t.quantity) == db.products[i].stock;
    assert RemoveAt(s.db.transactions, n) == db.transactions;
    assert d.db.logs[..|db.logs|] == db.logs;
  }

  /** A run of `store` calls by one user; rejected requests leave the state as it was. */
  function StoreAll(db: Db, reqs: seq<StoreRequest>, userId: nat, now: nat): (out: Db)
    requires Wf(db)
    ensures Wf(out)
    decreases |reqs|
  {
    if reqs == [] then db else StoreAll(Store(db, reqs[0], userId, now).db, reqs[1..], userId, now)
  }

  /**
   * After any run of `store` calls the transaction table has only grown, and a
   * product's stock is its initial stock plus the in-quantities minus the
   * out-quantities of the movements that were recorded for it.
   */
  lemma StoreGrowsTransactions(db: Db, req: StoreRequest, userId: nat, now: nat)
    requires Wf(db)
    ensures db.transactions <= Store(db, req, userId, now).db.transactions
  {
  }

  lemma {:induction false} StoreAllStock(db: Db, reqs: seq<StoreRequest>, userId: nat, now: nat, pid: nat)
    requires Wf(db) && HasProduct(db, pid)
    ensures var out := StoreAll(db, reqs, userId, now);
            && db.transactions <= out.transactions
            && HasProduct(out, pid)
            && StockOf(out, pid) == StockOf(db, pid) + Net(out.transactions[|db.transactions|..], pid)
    decreases |reqs|
  {
    var out := StoreAll(db, reqs, userId, now);
    if reqs == [] {
      assert out.transactions[|db.transactions|..] == [];
    } else {
      var mid := Store(db, reqs[0], userId, now).db;
      StoreKeepsBalance(db, reqs[0], userId, now, pid);
      StoreGrowsTransactions(db, reqs[0], userId, now);
      StoreAllStock(mid, reqs[1..], userId, now, pid);
      BalanceChain(db, mid, out, pid);
    }
  }

  /** Stock arithmetic of two consecutive stretches of recorded movements. */
  lemma BalanceChain(db: Db, mid: Db, out: Db, pid: nat)
    requires HasProduct(db, pid) && HasProduct(mid, pid) && HasProduct(out, pid)
    requires db.transactions <= mid.transactions <= out.transactions
    requires Balance(mid, pid) == Balance(db, pid)
    requires StockOf(out, pid) == StockOf(mid, pid) + Net(out.transactions[|mid.transactions|..], pid)
    ensures StockOf(out, pid) == StockOf(db, pid) + Net(out.transactions[|db.transactions|..], pid)
  {
    var suffix := out.transactions[|db.transactions|..];
    assert out.transactions == db.transactions + suffix;
    NetAppend(db.transactions, suffix, pid);
    var midSuffix := out.transactions[|mid.transactions|..];
    assert out.transactions == mid.transactions + midSuffix;
    NetAppend(mid.transactions, midSuffix, pid);
  }

  // ---------------------------------------------------------------- index

  /** The list filters: type, date range (on the day of `created_at`) and product. */
  datatype IndexFilter = IndexFilter(kind: Option<string>, fromDate: Option<nat>,
                                     toDate: Option<nat>, product: Option<nat>)

  /** The `where` clauses this controller and the report add to a transaction query. */
  datatype Clause = TypeIs(name: string) | OnOrAfter(day: nat) | OnOrBefore(day: nat) | ForProduct(id: nat)

  function Holds(c: Clause, t: Transaction): bool {
    match c
    case TypeIs(name) => TypeName(t.kind) == name
    case OnOrAfter(d) => d <= DayOf(t.createdAt)
    case OnOrBefore(d) => DayOf(t.createdAt) <= d
    case ForProduct(id) => t.productId == id
  }

  /** The query `index` builds: a clause for each filter that is filled, in the controller's order. */
  function IndexQuery(f: IndexFilter): seq<Clause> {
    (if Filled(f.kind) then [TypeIs(f.kind.value)] else [])
    + (if f.fromDate.Some? then [OnOrAfter(f.fromDate.value)] else [])
    + (if f.toDate.Some? then [OnOrBefore(f.toDate.value)] else [])
    + (if f.product.Some? then [ForProduct(f.product.value)] else [])
  }

  /** The filter as a condition on one transaction: each filled filter must hold, date bounds inclusive. */
  predicate Matches(t: Transaction, f: IndexFilter) {
    && (Filled(f.kind) ==> TypeName(t.kind) == f.kind.value)
    && (f.fromDate.Some? ==> f.fromDate.value <= DayOf(t.createdAt))
    && (f.toDate.Some? ==> DayOf(t.createdAt) <= f.toDate.value)
    && (f.product.Some? ==> t.productId == f.product.value)
  }

  lemma IndexQueryMeaning(f: IndexFilter, t: Transaction)
    ensures Query.AllHold(Holds, IndexQuery(f), t) <==> Matches(t, f)
  {
    var a := if Filled(f.kind) then [TypeIs(f.kind.value)] else [];
    var b := if f.fromDate.Some? then [OnOrAfter(f.fromDate.value)] else [];
    var c := if f.toDate.Some? then [OnOrBefore(f.toDate.value)] else [];
    var d := if f.product.Some? then [ForProduct(f.product.value)] else [];
    assert IndexQuery(f) == a + b + c + d;
    Query.AllHoldAppend(Holds, a + b + c, d, t);
    Query.AllHoldAppend(Holds, a + b, c, t);
    Query.AllHoldAppend(Holds, a, b, t);
    Query.AllHoldSingle(Holds, a, t);
    Query.AllHoldSingle(Holds, b, t);
    Query.AllHoldSingle(Holds, c, t);
    Query.AllHoldSingle(Holds, d, t);
  }

  /** `latest()`: newest `created_at` first. */
  function Recency(t: Transaction): int { -(t.createdAt as int) }

  /** One page (10 rows) of the transaction list, newest first. */
  function Index(ts: seq<Transaction>, f: IndexFilter, page: nat): (r: seq<Transaction>)
    ensures |r| <= 10
    ensures forall t :: t in r ==> t in ts && Matches(t, f)
  {
    var rows := Query.Run(ts, Holds, IndexQuery(f));
    assert forall t :: t in rows ==> t in ts && Matches(t, f) by {
      forall t | t in rows ensures t in ts && Matches(t, f) { IndexQueryMeaning(f, t); }
    }
    var sorted := Selection.SortBy(rows, Recency);
    var r := Selection.Page(sorted, page, 10);
    r
  }
}
