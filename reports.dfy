/**
 * ReportController: the filtered transaction list and its summary (`index`),
 * the newest activity-log entries, and the summary of the exported list
 * (`export`). Rendering the PDF is not modelled.
 */
module Reports {
  import opened Wrappers
  import opened Records
  import Query
  import Selection
  import Transactions

  /** The report filters, raw as the request carries them. */
  datatype ReportFilter = ReportFilter(fromDate: Option<nat>, toDate: Option<nat>, kind: Option<string>)

  datatype Summary = Summary(totalIn: nat, totalOut: nat, count: nat)

  /** The date-range clauses, inclusive on both ends. */
  function DateClauses(f: ReportFilter): seq<Transactions.Clause> {
    (if f.fromDate.Some? then [Transactions.OnOrAfter(f.fromDate.value)] else [])
    + (if f.toDate.Some? then [Transactions.OnOrBefore(f.toDate.value)] else [])
  }

  /** The type clause, added when the value passes `guard` (`filled` or `when`). */
  function TypeClause(kind: Option<string>, guard: bool): seq<Transactions.Clause>
    requires guard ==> kind.Some?
  {
    if guard then [Transactions.TypeIs(kind.value)] else []
  }

  /** The query of the list in `index` and of `export`: date range, then type when filled. */
  function ListQuery(f: ReportFilter): seq<Transactions.Clause> {
    DateClauses(f) + TypeClause(f.kind, Filled(f.kind))
  }

  /** The filtered transactions, in table order. */
  function Filtered(ts: seq<Transaction>, f: ReportFilter): (r: seq<Transaction>)
    ensures forall t :: t in r <==> t in ts && Transactions.Matches(t, AsIndexFilter(f))
    ensures multiset(r) <= multiset(ts)
  {
    var r := Query.Run(ts, Transactions.Holds, ListQuery(f));
    assert forall t :: t in r <==> t in ts && Transactions.Matches(t, AsIndexFilter(f)) by {
      forall t ensures t in r <==> t in ts && Transactions.Matches(t, AsIndexFilter(f)) {
        ListQueryMeaning(f, t);
      }
    }
    r
  }

  /** The report filter read as the transaction list's filter without a product. */
  function AsIndexFilter(f: ReportFilter): Transactions.IndexFilter {
    Transactions.IndexFilter(f.kind, f.fromDate, f.toDate, None)
  }

  lemma ListQueryMeaning(f: ReportFilter, t: Transaction)
    ensures Query.AllHold(Transactions.Holds, ListQuery(f), t) <==> Transactions.Matches(t, AsIndexFilter(f))
  {
    var a := if f.fromDate.Some? then [Transactions.OnOrAfter(f.fromDate.value)] else [];
    var b := if f.toDate.Some? then [Transactions.OnOrBefore(f.toDate.value)] else [];
    var c := TypeClause(f.kind, Filled(f.kind));
    Query.AllHoldAppend(Transactions.Holds, a + b, c, t);
    Query.AllHoldAppend(Transactions.Holds, a, b, t);
    Query.AllHoldSingle(Transactions.Holds, a, t);
    Query.AllHoldSingle(Transactions.Holds, b, t);
    Query.AllHoldSingle(Transactions.Holds, c, t);
  }

  /** `sum('quantity')`. */
  function SumQuantity(ts: seq<Transaction>): nat {
    if ts == [] then 0 else ts[0].quantity + SumQuantity(ts[1..])
  }

  /** The total received: the sum of the `in` quantities (each `out` row adds 0). */
  function SumIn(ts: seq<Transaction>): nat {
    if ts == [] then 0 else InQuantity(ts[0]) + SumIn(ts[1..])
  }

  /** The total issued: the sum of the `out` quantities (each `in` row adds 0). */
  function SumOut(ts: seq<Transaction>): nat {
    if ts == [] then 0 else OutQuantity(ts[0]) + SumOut(ts[1..])
  }

  /** `where('type', ...)->sum('quantity')` is the total received, resp. issued. */
  lemma {:induction false} OfTypeSums(ts: seq<Transaction>)
    ensures SumQuantity(OfType(ts, "in")) == SumIn(ts)
    ensures SumQuantity(OfType(ts, "out")) == SumOut(ts)
  {
    if ts != [] {
      OfTypeSums(ts[1..]);
      var t := ts[0];
      var i := OfType(ts[1..], "in");
      var o := OfType(ts[1..], "out");
      if t.kind == In {
        assert OfType(ts, "in") == [t] + i;
        assert OfType(ts, "out") == o;
        assert ([t] + i)[1..] == i;
      } else {
        assert OfType(ts, "out") == [t] + o;
        assert OfType(ts, "in") == i;
        assert ([t] + o)[1..] == o;
      }
    }
  }

  function OfType(ts: seq<Transaction>, name: string): seq<Transaction> {
    Query.Where(ts, Transactions.Holds, Transactions.TypeIs(name))
  }

  /** Splitting a list into its `in` and its `out` rows loses no quantity, since every stored type is one of the two. */
  lemma {:induction false} InOutSplit(ts: seq<Transaction>)
    ensures SumQuantity(OfType(ts, "in")) + SumQuantity(OfType(ts, "out")) == SumQuantity(ts)
  {
    if ts != [] {
      InOutSplit(ts[1..]);
      var t := ts[0];
      var i := OfType(ts[1..], "in");
      var o := OfType(ts[1..], "out");
      if t.kind == In {
        assert OfType(ts, "in") == [t] + i;
        assert OfType(ts, "out") == o;
        assert ([t] + i)[1..] == i;
      } else {
        assert OfType(ts, "out") == [t] + o;
        assert OfType(ts, "in") == i;
        assert ([t] + o)[1..] == o;
      }
    }
  }

  lemma {:induction false} NoneOfType(ts: seq<Transaction>, name: string)
    requires forall t :: t in ts ==> TypeName(t.kind) != name
    ensures OfType(ts, name) == []
  {
    if ts != [] {
      assert ts[0] in ts;
      NoneOfType(ts[1..], name);
    }
  }

  /** With a type filter the list holds no row of the other type. */
  lemma OneSided(ts: seq<Transaction>, f: ReportFilter)
    ensures f.kind == Some("out") ==> OfType(Filtered(ts, f), "in") == []
    ensures f.kind == Some("in") ==> OfType(Filtered(ts, f), "out") == []
  {
    var list := Filtered(ts, f);
    if f.kind == Some("out") {
      NoneOfType(list, "in");
    }
    if f.kind == Some("in") {
      NoneOfType(list, "out");
    }
  }

  /**
   * `export`: the summary is computed on the exported list itself, so the count is
   * its length, the two totals add up to its quantity, and a type filter empties
   * the other total.
   */
  function ExportSummary(ts: seq<Transaction>, f: ReportFilter): (s: Summary)
    ensures s.count == |Filtered(ts, f)|
    ensures s.totalIn == SumIn(Filtered(ts, f)) && s.totalOut == SumOut(Filtered(ts, f))
    ensures s.totalIn + s.totalOut == SumQuantity(Filtered(ts, f))
    ensures f.kind == Some("out") ==> s.totalIn == 0
    ensures f.kind == Some("in") ==> s.totalOut == 0
  {
    var list := Filtered(ts, f);
    InOutSplit(list);
    OneSided(ts, f);
    OfTypeSums(list);
    Summary(SumQuantity(OfType(list, "in")), SumQuantity(OfType(list, "out")), |list|)
  }

  /** `where(...)` appended to a query narrows the query's result. */
  lemma RunSnoc(ts: seq<Transaction>, q: seq<Transactions.Clause>, c: Transactions.Clause)
    ensures Query.Run(ts, Transactions.Holds, q + [c]) == Query.Where(Query.Run(ts, Transactions.Holds, q), Transactions.Holds, c)
  {
    assert (q + [c])[..|q + [c]| - 1] == q;
  }

  /**
   * The `index` summary as written: the totals apply only the date range (and
   * their own type); the count applies the date range and, through `when`, the
   * type filter only when it is truthy in PHP, so a type of "0" is dropped.
   */
  function IndexSummaryAsWritten(ts: seq<Transaction>, f: ReportFilter): (s: Summary)
    ensures s.totalIn == SumIn(Filtered(ts, f.(kind := None)))
    ensures s.totalOut == SumOut(Filtered(ts, f.(kind := None)))
    ensures s.count == |Filtered(ts, if Truthy(f.kind) then f else f.(kind := None))|
  {
    var dates := DateClauses(f);
    assert ListQuery(f.(kind := None)) == dates;
    assert Truthy(f.kind) ==> TypeClause(f.kind, Truthy(f.kind)) == TypeClause(f.kind, Filled(f.kind));
    assert !Truthy(f.kind) ==> dates + TypeClause(f.kind, Truthy(f.kind)) == dates;
    RunSnoc(ts, dates, Transactions.TypeIs("in"));
    RunSnoc(ts, dates, Transactions.TypeIs("out"));
    OfTypeSums(Filtered(ts, f.(kind := None)));
    Summary(SumQuantity(Query.Run(ts, Transactions.Holds, dates + [Transactions.TypeIs("in")])),
            SumQuantity(Query.Run(ts, Transactions.Holds, dates + [Transactions.TypeIs("out")])),
            |Query.Run(ts, Transactions.Holds, dates + TypeClause(f.kind, Truthy(f.kind)))|)
  }

  /**
   * For every table and date range, a type filter of "0" empties the list while
   * the count as written counts every transaction in the date range.
   */
  lemma ZeroTypeCountIgnoresFilter(ts: seq<Transaction>, f: ReportFilter)
    requires f.kind == Some("0")
    ensures Filtered(ts, f) == []
    ensures IndexSummaryAsWritten(ts, f).count == |Filtered(ts, f.(kind := None))|
  {
    forall t | t in ts ensures !Query.AllHold(Transactions.Holds, ListQuery(f), t) {
      ListQueryMeaning(f, t);
    }
    Query.RunIsWhereAll(ts, Transactions.Holds, ListQuery(f));
    Query.WhereAllNone(ts, Transactions.Holds, ListQuery(f));
  }

  /**
   * The type filter "0" is filled, so the list keeps only rows of type "0" (none),
   * but it is falsy, so the count as written ignores it and counts every row.
   */
  lemma IndexCountDisagreesWithList()
    ensures var t := Transaction(1, 1, 1, In, 5, None, 0);
            var f := ReportFilter(None, None, Some("0"));
            && IndexSummaryAsWritten([t], f).count == 1
            && |Filtered([t], f)| == 0
  {
    var t := Transaction(1, 1, 1, In, 5, None, 0);
    var f := ReportFilter(None, None, Some("0"));
    ZeroTypeCountIgnoresFilter([t], f);
    assert ListQuery(f.(kind := None)) == [];
    assert Filtered([t], f.(kind := None)) == [t];
  }

  /**
   * The `index` summary with the count guarded by `filled`, like the list: the
   * count is the length of the filtered list, and the totals ignore the type
   * filter, being the export totals of the list without it.
   */
  function IndexSummary(ts: seq<Transaction>, f: ReportFilter): (s: Summary)
    ensures s.count == |Filtered(ts, f)|
    ensures s.totalIn == SumIn(Filtered(ts, f.(kind := None)))
    ensures s.totalOut == SumOut(Filtered(ts, f.(kind := None)))
    ensures s.totalIn == ExportSummary(ts, f.(kind := None)).totalIn
    ensures s.totalOut == ExportSummary(ts, f.(kind := None)).totalOut
  {
    var dates := DateClauses(f);
    assert ListQuery(f.(kind := None)) == dates;
    RunSnoc(ts, dates, Transactions.TypeIs("in"));
    RunSnoc(ts, dates, Transactions.TypeIs("out"));
    OfTypeSums(Filtered(ts, f.(kind := None)));
    Summary(SumQuantity(Query.Run(ts, Transactions.Holds, dates + [Transactions.TypeIs("in")])),
            SumQuantity(Query.Run(ts, Transactions.Holds, dates + [Transactions.TypeIs("out")])),
            |Query.Run(ts, Transactions.Holds, dates + TypeClause(f.kind, Filled(f.kind)))|)
  }

  /** The two count guards differ only on a type filter that is filled but falsy ("0"). */
  lemma IndexSummaryAgreesOffZero(ts: seq<Transaction>, f: ReportFilter)
    requires f.kind != Some("0")
    ensures IndexSummaryAsWritten(ts, f) == IndexSummary(ts, f)
  {
  }

  /** One page (15 rows) of the report list, newest first. */
  function Index(ts: seq<Transaction>, f: ReportFilter, page: nat): (r: seq<Transaction>)
    ensures |r| <= 15
    ensures forall t :: t in r ==> t in ts && Transactions.Matches(t, AsIndexFilter(f))
  {
    Selection.Page(Selection.SortBy(Filtered(ts, f), Transactions.Recency), page, 15)
  }

  /** `latest()` on activity logs. */
  function LogRecency(e: LogEntry): int { -(e.createdAt as int) }

  /** The activity panel: the ten newest log entries, newest first; none left out is newer than the last shown. */
  function ActivityLogs(logs: seq<LogEntry>): (r: seq<LogEntry>)
    ensures |r| == Selection.Min(10, |logs|)
    ensures forall i, j :: 0 <= i < j < |r| ==> r[i].createdAt >= r[j].createdAt
    ensures forall e :: e in r ==> e in logs
    ensures multiset(r) <= multiset(logs)
    ensures forall e :: e in logs && e !in r ==> e.createdAt <= r[|r| - 1].createdAt
  {
    var r := Selection.TopBy(logs, LogRecency, 10);
    assert forall i, j :: 0 <= i < j < |r| ==> LogRecency(r[i]) <= LogRecency(r[j]);
    r
  }
}
