/**
 * DashboardController: the four counters, the five newest transactions, the
 * five products lowest in stock, and the per-month in/out totals of the last
 * six months.
 */
module Dashboard {
  import opened Wrappers
  import opened Records
  import Query
  import Selection
  import Transactions
  import Products

  /** The dashboard's low-stock threshold, inclusive. */
  const LowStockLevel := 10

  datatype Stats = Stats(totalProducts: nat, totalCategories: nat, lowStockProducts: nat, totalTransactions: nat)

  /** `Product::where('stock', '<=', 10)`, in table order. */
  function LowStock(ps: seq<Product>): (r: seq<Product>)
    ensures forall p :: p in r <==> p in ps && p.stock <= LowStockLevel
    ensures multiset(r) <= multiset(ps)
  {
    var q := [Products.StockAtMost(LowStockLevel)];
    var r := Query.Run(ps, Products.Holds, q);
    assert forall p :: p in r <==> p in ps && p.stock <= LowStockLevel by {
      forall p ensures Query.AllHold(Products.Holds, q, p) <==> p.stock <= LowStockLevel {
        Query.AllHoldSingle(Products.Holds, q, p);
      }
    }
    r
  }

  /** The four counters. */
  function CountStats(db: Db): (s: Stats)
    ensures s.totalProducts == |db.products| && s.totalCategories == |db.categories|
    ensures s.totalTransactions == |db.transactions|
    ensures s.lowStockProducts == |LowStock(db.products)| <= |db.products|
  {
    Stats(|db.products|, |db.categories|, |LowStock(db.products)|, |db.transactions|)
  }

  /** Products with a negative stock, which the product list's stock filters never show. */
  function NegativeCount(ps: seq<Product>): nat {
    if ps == [] then 0 else (if ps[0].stock < 0 then 1 else 0) + NegativeCount(ps[1..])
  }

  /**
   * The low-stock counter counts what the product list shows under "low" plus
   * what it shows under "out", plus the products whose stock went negative.
   */
  lemma LowStockCount(ps: seq<Product>)
    ensures |LowStock(ps)| ==
      |Query.Run(ps, Products.Holds, Products.IndexQuery(Products.ProductFilter(None, None, Some("low"))))|
      + |Query.Run(ps, Products.Holds, Products.IndexQuery(Products.ProductFilter(None, None, Some("out"))))|
      + NegativeCount(ps)
  {
    var low := Products.ProductFilter(None, None, Some("low"));
    var out := Products.ProductFilter(None, None, Some("out"));
    assert Products.IndexQuery(low) == Products.TierClauses(Products.Low);
    assert Products.IndexQuery(out) == Products.TierClauses(Products.OutOfStock);
    Query.RunIsWhereAll(ps, Products.Holds, [Products.StockAtMost(LowStockLevel)]);
    Query.RunIsWhereAll(ps, Products.Holds, Products.TierClauses(Products.Low));
    Query.RunIsWhereAll(ps, Products.Holds, Products.TierClauses(Products.OutOfStock));
    LowStockSplit(ps);
  }

  lemma {:induction false} LowStockSplit(ps: seq<Product>)
    ensures |Query.WhereAll(ps, Products.Holds, [Products.StockAtMost(LowStockLevel)])| ==
      |Query.WhereAll(ps, Products.Holds, Products.TierClauses(Products.Low))|
      + |Query.WhereAll(ps, Products.Holds, Products.TierClauses(Products.OutOfStock))|
      + NegativeCount(ps)
  {
    if ps != [] {
      var p := ps[0];
      LowStockSplit(ps[1..]);
      Query.AllHoldSingle(Products.Holds, [Products.StockAtMost(LowStockLevel)], p);
      Products.TierClausesMeaning(Products.Low, p);
      Products.TierClausesMeaning(Products.OutOfStock, p);
    }
  }

  function StockLevel(p: Product): int { p.stock }

  /**
   * `lowStockItems`: at most five distinct low-stock rows, lowest stock first; no
   * low-stock product left out has less stock than the last one shown.
   */
  function LowStockItems(ps: seq<Product>): (r: seq<Product>)
    ensures |r| == Selection.Min(5, |LowStock(ps)|)
    ensures forall p :: p in r ==> p in ps && p.stock <= LowStockLevel
    ensures multiset(r) <= multiset(LowStock(ps))
    ensures forall i, j :: 0 <= i < j < |r| ==> r[i].stock <= r[j].stock
    ensures forall p :: p in ps && p.stock <= LowStockLevel && p !in r ==> r[|r| - 1].stock <= p.stock
  {
    var low := LowStock(ps);
    var r := Selection.TopBy(low, StockLevel, 5);
    assert forall i, j :: 0 <= i < j < |r| ==> StockLevel(r[i]) <= StockLevel(r[j]);
    r
  }

  /** `recentTransactions`: the five newest transactions, each row at most once, newest first. */
  function RecentTransactions(ts: seq<Transaction>): (r: seq<Transaction>)
    ensures |r| == Selection.Min(5, |ts|)
    ensures forall t :: t in r ==> t in ts
    ensures multiset(r) <= multiset(ts)
    ensures forall i, j :: 0 <= i < j < |r| ==> r[i].createdAt >= r[j].createdAt
    ensures forall t :: t in ts && t !in r ==> t.createdAt <= r[|r| - 1].createdAt
  {
    var r := Selection.TopBy(ts, Transactions.Recency, 5);
    assert forall i, j :: 0 <= i < j < |r| ==> Transactions.Recency(r[i]) <= Transactions.Recency(r[j]);
    r
  }

  // Monthly summary. `monthOf` is the `TO_CHAR(created_at, 'YYYY-MM')` key read as
  // a number that orders months as the text does; `since` is six months before now.

  datatype MonthRow = MonthRow(month: nat, totalIn: nat, totalOut: nat)

  /** Whether t falls in month m of the summary window. */
  predicate InMonth(t: Transaction, since: nat, monthOf: nat -> nat, m: nat) {
    t.createdAt >= since && monthOf(t.createdAt) == m
  }

  /** `SUM(...)` of the `in` quantities of one month, as the grouped query defines it. */
  function MonthIn(ts: seq<Transaction>, since: nat, monthOf: nat -> nat, m: nat): nat {
    if ts == [] then 0
    else MonthIn(ts[..|ts| - 1], since, monthOf, m)
         + (if InMonth(ts[|ts| - 1], since, monthOf, m) then InQuantity(ts[|ts| - 1]) else 0)
  }

  /** `SUM(...)` of the `out` quantities of one month. */
  function MonthOut(ts: seq<Transaction>, since: nat, monthOf: nat -> nat, m: nat): nat {
    if ts == [] then 0
    else MonthOut(ts[..|ts| - 1], since, monthOf, m)
         + (if InMonth(ts[|ts| - 1], since, monthOf, m) then OutQuantity(ts[|ts| - 1]) else 0)
  }

  /** The months that have at least one transaction in the window: the groups. */
  function WindowMonths(ts: seq<Transaction>, since: nat, monthOf: nat -> nat): set<nat> {
    if ts == [] then {}
    else WindowMonths(ts[..|ts| - 1], since, monthOf)
         + (if ts[|ts| - 1].createdAt >= since then {monthOf(ts[|ts| - 1].createdAt)} else {})
  }

  lemma {:induction false} WindowMonthsMeaning(ts: seq<Transaction>, since: nat, monthOf: nat -> nat, m: nat)
    ensures m in WindowMonths(ts, since, monthOf) <==> exists t :: t in ts && InMonth(t, since, monthOf, m)
  {
    if ts != [] {
      var init := ts[..|ts| - 1];
      WindowMonthsMeaning(init, since, monthOf, m);
      var last := ts[|ts| - 1];
      assert ts == init + [last];
      if InMonth(last, since, monthOf, m) {
        assert last in ts;
      }
      if t :| t in init && InMonth(t, since, monthOf, m) {
        assert t in ts;
      }
      if t :| t in ts && InMonth(t, since, monthOf, m) {
        assert t in init || t == last;
      }
    }
  }

  /** Each row's month comes strictly before the next row's: `groupBy` then `orderBy('month')`. */
  predicate Ascending(rows: seq<MonthRow>) {
    |rows| <= 1 || (rows[0].month < rows[1].month && Ascending(rows[1..]))
  }

  function Months(rows: seq<MonthRow>): set<nat> {
    if rows == [] then {} else {rows[0].month} + Months(rows[1..])
  }

  /** The `in` total the rows give month m (zero when no row has it). */
  function RowIn(rows: seq<MonthRow>, m: nat): nat {
    if rows == [] then 0 else (if rows[0].month == m then rows[0].totalIn else 0) + RowIn(rows[1..], m)
  }

  function RowOut(rows: seq<MonthRow>, m: nat): nat {
    if rows == [] then 0 else (if rows[0].month == m then rows[0].totalOut else 0) + RowOut(rows[1..], m)
  }

  /** Adds a quantity pair to month m's row, inserting the row in order when it is new. */
  function AddTo(rows: seq<MonthRow>, m: nat, qIn: nat, qOut: nat): (r: seq<MonthRow>)
    requires Ascending(rows)
    ensures Ascending(r)
    ensures r != [] && r[0].month == (if rows == [] || m < rows[0].month then m else rows[0].month)
    ensures Months(r) == Months(rows) + {m}
    ensures forall k :: RowIn(r, k) == RowIn(rows, k) + (if k == m then qIn else 0)
    ensures forall k :: RowOut(r, k) == RowOut(rows, k) + (if k == m then qOut else 0)
  {
    if rows == [] then
      [MonthRow(m, qIn, qOut)]
    else if rows[0].month == m then
      var r := [MonthRow(m, rows[0].totalIn + qIn, rows[0].totalOut + qOut)] + rows[1..];
      assert r[1..] == rows[1..];
      r
    else if m < rows[0].month then
      var r := [MonthRow(m, qIn, qOut)] + rows;
      assert r[1..] == rows;
      r
    else
      var rest := AddTo(rows[1..], m, qIn, qOut);
      var r := [rows[0]] + rest;
      assert r[1..] == rest;
      r
  }

  /** The grouping: one pass over the table, adding each windowed transaction to its month's row. */
  function Group(ts: seq<Transaction>, since: nat, monthOf: nat -> nat): (rows: seq<MonthRow>)
    ensures Ascending(rows)
    ensures Months(rows) == WindowMonths(ts, since, monthOf)
    ensures forall k :: RowIn(rows, k) == MonthIn(ts, since, monthOf, k)
    ensures forall k :: RowOut(rows, k) == MonthOut(ts, since, monthOf, k)
  {
    if ts == [] then []
    else
      var t := ts[|ts| - 1];
      var rows := Group(ts[..|ts| - 1], since, monthOf);
      if t.createdAt >= since then AddTo(rows, monthOf(t.createdAt), InQuantity(t), OutQuantity(t)) else rows
  }

  lemma {:induction false} NotBefore(rows: seq<MonthRow>, m: nat)
    requires Ascending(rows) && rows != [] && m < rows[0].month
    ensures m !in Months(rows)
    ensures RowIn(rows, m) == 0 && RowOut(rows, m) == 0
  {
    if |rows| > 1 {
      NotBefore(rows[1..], m);
    }
  }

  /** In ordered rows, row i's totals are the totals the rows give its month. */
  lemma {:induction false} RowTotals(rows: seq<MonthRow>, i: nat)
    requires Ascending(rows) && i < |rows|
    ensures RowIn(rows, rows[i].month) == rows[i].totalIn
    ensures RowOut(rows, rows[i].month) == rows[i].totalOut
  {
    if i == 0 {
      if |rows| > 1 {
        NotBefore(rows[1..], rows[0].month);
      }
    } else {
      RowTotals(rows[1..], i - 1);
      assert rows[1..][i - 1] == rows[i];
      if rows[0].month == rows[i].month {
        AscendingBelow(rows, i);
      }
    }
  }

  lemma {:induction false} AscendingBelow(rows: seq<MonthRow>, i: nat)
    requires Ascending(rows) && 0 < i < |rows|
    ensures rows[0].month < rows[i].month
  {
    if i > 1 {
      AscendingBelow(rows[1..], i - 1);
    }
  }

  /**
   * `monthlySummary`: one row per month with a transaction in the window, in
   * month order, each holding that month's in and out totals.
   */
  function MonthlySummary(ts: seq<Transaction>, since: nat, monthOf: nat -> nat): (rows: seq<MonthRow>)
    ensures forall i, j :: 0 <= i < j < |rows| ==> rows[i].month < rows[j].month
    ensures forall m :: m in Months(rows) <==> exists t :: t in ts && InMonth(t, since, monthOf, m)
    ensures forall i :: 0 <= i < |rows| ==>
      rows[i].totalIn == MonthIn(ts, since, monthOf, rows[i].month)
      && rows[i].totalOut == MonthOut(ts, since, monthOf, rows[i].month)
  {
    var rows := Group(ts, since, monthOf);
    assert forall i, j :: 0 <= i < j < |rows| ==> rows[i].month < rows[j].month by {
      forall i, j | 0 <= i < j < |rows| ensures rows[i].month < rows[j].month {
        AscendingSuffix(rows, i);
        AscendingBelow(rows[i..], j - i);
        assert rows[i..][j - i] == rows[j];
      }
    }
    assert forall m :: m in Months(rows) <==> exists t :: t in ts && InMonth(t, since, monthOf, m) by {
      forall m ensures m in Months(rows) <==> exists t :: t in ts && InMonth(t, since, monthOf, m) {
        WindowMonthsMeaning(ts, since, monthOf, m);
      }
    }
    assert forall i :: 0 <= i < |rows| ==>
      rows[i].totalIn == MonthIn(ts, since, monthOf, rows[i].month)
      && rows[i].totalOut == MonthOut(ts, since, monthOf, rows[i].month) by {
      forall i | 0 <= i < |rows| ensures rows[i].totalIn == MonthIn(ts, since, monthOf, rows[i].month)
        && rows[i].totalOut == MonthOut(ts, since, monthOf, rows[i].month) {
        RowTotals(rows, i);
      }
    }
    rows
  }

  lemma {:induction false} AscendingSuffix(rows: seq<MonthRow>, i: nat)
    requires Ascending(rows) && i <= |rows|
    ensures Ascending(rows[i..])
  {
    if i > 0 {
      AscendingSuffix(rows[1..], i - 1);
      assert rows[1..][i - 1..] == rows[i..];
    }
  }

  datatype View = View(stats: Stats, recentTransactions: seq<Transaction>, lowStockItems: seq<Product>,
                       monthlySummary: seq<MonthRow>)

  /** The whole dashboard for a database, a window start and a month key. */
  function Show(db: Db, since: nat, monthOf: nat -> nat): View {
    View(CountStats(db), RecentTransactions(db.transactions), LowStockItems(db.products),
         MonthlySummary(db.transactions, since, monthOf))
  }
}
