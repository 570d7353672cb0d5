/**
 * The rows of the four tables the controllers touch (categories, products,
 * transactions, activity_logs), the database state made of them, request
 * values as Laravel presents them, and the errors a controller action can end in.
 */
module Records {
  import opened Wrappers

  /** Seconds in a day: `whereDate` compares the calendar day of `created_at`. */
  const SecondsPerDay: nat := 86400

  /** The day number of a timestamp (seconds since the epoch). */
  function DayOf(t: nat): nat { t / SecondsPerDay }

  datatype MoveType = In | Out

  /** The value stored in the `type` column. */
  function TypeName(k: MoveType): string {
    match k
    case In => "in"
    case Out => "out"
  }

  /** The `in:in,out` validation rule: only the two stored spellings are accepted. */
  function ParseType(s: string): (r: Option<MoveType>)
    ensures r.Some? <==> s == "in" || s == "out"
    ensures r.Some? ==> TypeName(r.value) == s
  {
    if s == "in" then Some(In) else if s == "out" then Some(Out) else None
  }

  /** A movement's quantity when it is a receipt (`CASE WHEN type = 'in' THEN quantity ELSE 0 END`), else 0. */
  function InQuantity(t: Transaction): nat { if t.kind == In then t.quantity else 0 }

  /** A movement's quantity when it is an issue (`CASE WHEN type = 'out' THEN quantity ELSE 0 END`), else 0. */
  function OutQuantity(t: Transaction): nat { if t.kind == Out then t.quantity else 0 }

  /** The label used in the activity-log descriptions of stock movements. */
  function TypeLabel(k: MoveType): string {
    match k
    case In => "Stok Masuk"
    case Out => "Stok Keluar"
  }

  datatype Action = Create | Update | Delete

  /** The `model_type` column of an activity-log row. */
  datatype ModelType = CategoryModel | ProductModel | TransactionModel

  datatype Category = Category(id: nat, name: string, description: Option<string>, createdAt: nat)

  /** `price` is a decimal column; here it is an amount in the smallest currency unit. */
  datatype Product = Product(id: nat, categoryId: nat, name: string, description: Option<string>,
                             stock: int, price: nat, createdAt: nat)

  datatype Transaction = Transaction(id: nat, productId: nat, userId: nat, kind: MoveType,
                                     quantity: nat, notes: Option<string>, createdAt: nat)

  datatype LogEntry = LogEntry(id: nat, userId: nat, action: Action, modelType: ModelType,
                               modelId: nat, description: string, createdAt: nat)

  /** The whole store: each table in id order, and the next auto-increment id of each. */
  datatype Db = Db(categories: seq<Category>, products: seq<Product>,
                   transactions: seq<Transaction>, logs: seq<LogEntry>,
                   nextCategoryId: nat, nextProductId: nat,
                   nextTransactionId: nat, nextLogId: nat)

  /** A fresh database: empty tables, auto-increment ids starting at 1. */
  function EmptyDb(): Db { Db([], [], [], [], 1, 1, 1, 1) }

  /** The request keys a validation error can be attached to. */
  datatype Field = ProductId | Type | Quantity | CategoryId | Name | Stock | Price

  /**
   * Invalid: the validator rejected these keys (Laravel reports every failing key).
   * InsufficientStock: the stock check of a stock-out movement, carrying the available stock.
   * NotFound: route-model binding found no row (HTTP 404).
   * Aborted: an exception inside DB::transaction rolled the unit back.
   */
  datatype Error = Invalid(fields: set<Field>) | InsufficientStock(available: int) | NotFound | Aborted

  /** What a controller action returns, together with the database afterwards. */
  datatype Outcome<T> = Outcome(result: Result<T, Error>, db: Db)

  /** `$request->filled(key)`: present and not empty (input strings arrive trimmed). */
  predicate Filled(v: Option<string>) { v.Some? && v.value != "" }

  /** PHP truthiness of a request string, as `->when($value, ...)` tests it: "0" is false. */
  predicate Truthy(v: Option<string>) { Filled(v) && v.value != "0" }

  // ---- primary keys ----

  function CategoryKey(c: Category): nat { c.id }
  function ProductKey(p: Product): nat { p.id }
  function TransactionKey(t: Transaction): nat { t.id }
  function LogKey(e: LogEntry): nat { e.id }

  /** Auto-increment ids: strictly ascending in table order, all below the next id. */
  ghost predicate IdsAscending<T>(s: seq<T>, key: T -> nat, next: nat) {
    && (forall i, j :: 0 <= i < j < |s| ==> key(s[i]) < key(s[j]))
    && (forall i :: 0 <= i < |s| ==> key(s[i]) < next)
  }

  ghost predicate Wf(db: Db) {
    && IdsAscending(db.categories, CategoryKey, db.nextCategoryId)
    && IdsAscending(db.products, ProductKey, db.nextProductId)
    && IdsAscending(db.transactions, TransactionKey, db.nextTransactionId)
    && IdsAscending(db.logs, LogKey, db.nextLogId)
  }

  lemma EmptyDbWf()
    ensures Wf(EmptyDb())
  {
  }

  /** Appending a row with the next id keeps the ids ascending. */
  lemma AppendAscending<T>(s: seq<T>, key: T -> nat, next: nat, x: T)
    requires IdsAscending(s, key, next) && key(x) == next
    ensures IdsAscending(s + [x], key, next + 1)
  {
  }

  /** Deleting a row keeps the ids ascending. */
  lemma RemoveAscending<T>(s: seq<T>, key: T -> nat, next: nat, i: nat)
    requires IdsAscending(s, key, next) && i < |s|
    ensures IdsAscending(RemoveAt(s, i), key, next)
  {
    var r := RemoveAt(s, i);
    forall a, b | 0 <= a < b < |r| ensures key(r[a]) < key(r[b]) {
      var a' := if a < i then a else a + 1;
      var b' := if b < i then b else b + 1;
      assert r[a] == s[a'] && r[b] == s[b'];
    }
  }

  /** A row lookup by primary key (`find`, `findOrFail`, route-model binding). */
  function IndexOf<T>(s: seq<T>, key: T -> nat, id: nat): (r: Option<nat>)
    ensures r.Some? ==> r.value < |s| && key(s[r.value]) == id
    ensures r.None? ==> forall i :: 0 <= i < |s| ==> key(s[i]) != id
  {
    if s == [] then None
    else if key(s[0]) == id then Some(0)
    else match IndexOf(s[1..], key, id)
      case None => None
      case Some(k) => Some(k + 1)
  }

  /** With ascending ids a key names exactly one row. */
  lemma IndexOfRow<T>(s: seq<T>, key: T -> nat, next: nat, i: nat)
    requires IdsAscending(s, key, next) && i < |s|
    ensures IndexOf(s, key, key(s[i])) == Some(i)
  {
  }

  /** IndexOf finds the first row carrying the key. */
  lemma {:induction false} IndexOfFirst<T>(s: seq<T>, key: T -> nat, id: nat, i: nat)
    requires i < |s| && key(s[i]) == id
    requires forall j :: 0 <= j < i ==> key(s[j]) != id
    ensures IndexOf(s, key, id) == Some(i)
  {
    if i > 0 {
      assert key(s[0]) != id;
      assert forall j :: 0 <= j < i - 1 ==> key(s[1..][j]) != id by {
        forall j | 0 <= j < i - 1 ensures key(s[1..][j]) != id { assert s[1..][j] == s[j + 1]; }
      }
      IndexOfFirst(s[1..], key, id, i - 1);
    }
  }

  /** The table without its row at index i (`->delete()`). */
  function RemoveAt<T>(s: seq<T>, i: nat): (r: seq<T>)
    requires i < |s|
    ensures |r| == |s| - 1
    ensures forall j :: 0 <= j < i ==> r[j] == s[j]
    ensures forall j :: i <= j < |r| ==> r[j] == s[j + 1]
  {
    s[..i] + s[i + 1..]
  }

  function ProductIndex(db: Db, id: nat): Option<nat> { IndexOf(db.products, ProductKey, id) }
  function CategoryIndex(db: Db, id: nat): Option<nat> { IndexOf(db.categories, CategoryKey, id) }
  function TransactionIndex(db: Db, id: nat): Option<nat> { IndexOf(db.transactions, TransactionKey, id) }

  predicate HasProduct(db: Db, id: nat) { ProductIndex(db, id).Some? }
  predicate HasCategory(db: Db, id: nat) { CategoryIndex(db, id).Some? }
  predicate HasTransaction(db: Db, id: nat) { TransactionIndex(db, id).Some? }

  // ---- decimal text of a number, as PHP interpolates an integer into a string ----

  function DigitChar(d: nat): char
    requires d < 10
  {
    "0123456789"[d]
  }

  predicate IsDigit(c: char) { '0' <= c <= '9' }

  function DigitValue(c: char): nat
    requires IsDigit(c)
  {
    (c - '0') as nat
  }

  function Decimal(n: nat): (s: string)
    ensures |s| > 0
    ensures forall i :: 0 <= i < |s| ==> IsDigit(s[i])
  {
    if n < 10 then [DigitChar(n)] else Decimal(n / 10) + [DigitChar(n % 10)]
  }

  function DecimalValue(s: string): nat
    requires forall i :: 0 <= i < |s| ==> IsDigit(s[i])
  {
    if s == [] then 0 else DecimalValue(s[..|s| - 1]) * 10 + DigitValue(s[|s| - 1])
  }

  /** The text of a quantity in a log description reads back as that quantity. */
  lemma {:induction false} DecimalRoundTrip(n: nat)
    ensures DecimalValue(Decimal(n)) == n
  {
    var s := Decimal(n);
    if n >= 10 {
      DecimalRoundTrip(n / 10);
      assert s[..|s| - 1] == Decimal(n / 10);
    }
  }
}
