/**
 * The Eloquent query builder as the controllers use it: a query is the list of
 * `where` clauses added so far, and running it filters the table clause by
 * clause, keeping the table's order. `holds` says when one clause keeps a row.
 */
module Query {

  /** A row satisfies every clause of the query. */
  predicate AllHold<C, T>(holds: (C, T) -> bool, q: seq<C>, x: T) {
    forall i :: 0 <= i < |q| ==> holds(q[i], x)
  }

  lemma AllHoldSnoc<C, T>(holds: (C, T) -> bool, q: seq<C>, c: C, x: T)
    ensures AllHold(holds, q + [c], x) <==> AllHold(holds, q, x) && holds(c, x)
  {
    if AllHold(holds, q, x) && holds(c, x) {
      forall i | 0 <= i < |q + [c]| ensures holds((q + [c])[i], x) {
        if i < |q| { assert (q + [c])[i] == q[i]; }
      }
    }
    if AllHold(holds, q + [c], x) {
      forall i | 0 <= i < |q| ensures holds(q[i], x) {
        assert (q + [c])[i] == q[i];
      }
      assert (q + [c])[|q|] == c;
    }
  }

  lemma AllHoldSingle<C, T>(holds: (C, T) -> bool, q: seq<C>, x: T)
    requires |q| <= 1
    ensures AllHold(holds, q, x) <==> (q == [] || holds(q[0], x))
  {
  }

  lemma AllHoldAppend<C, T>(holds: (C, T) -> bool, p: seq<C>, q: seq<C>, x: T)
    ensures AllHold(holds, p + q, x) <==> AllHold(holds, p, x) && AllHold(holds, q, x)
  {
    if AllHold(holds, p, x) && AllHold(holds, q, x) {
      forall i | 0 <= i < |p + q| ensures holds((p + q)[i], x) {
        if i < |p| { assert (p + q)[i] == p[i]; } else { assert (p + q)[i] == q[i - |p|]; }
      }
    }
    if AllHold(holds, p + q, x) {
      forall i | 0 <= i < |p| ensures holds(p[i], x) {
        assert (p + q)[i] == p[i];
      }
      forall i | 0 <= i < |q| ensures holds(q[i], x) {
        assert (p + q)[|p| + i] == q[i];
      }
    }
  }

  /** One `where` clause applied to a table. */
  function Where<C, T(!new)>(s: seq<T>, holds: (C, T) -> bool, c: C): (r: seq<T>)
    ensures |r| <= |s|
    ensures forall x :: x in r <==> x in s && holds(c, x)
  {
    if s == [] then []
    else (if holds(c, s[0]) then [s[0]] else []) + Where(s[1..], holds, c)
  }

  /** All clauses at once: one pass keeping the rows that satisfy every clause. */
  function WhereAll<C, T(!new)>(s: seq<T>, holds: (C, T) -> bool, q: seq<C>): (r: seq<T>)
    ensures |r| <= |s|
    ensures forall x :: x in r <==> x in s && AllHold(holds, q, x)
    ensures multiset(r) <= multiset(s)
  {
    if s == [] then []
    else
      assert s == [s[0]] + s[1..];
      (if AllHold(holds, q, s[0]) then [s[0]] else []) + WhereAll(s[1..], holds, q)
  }

  /** A `where` keeps each row at most as often as the table has it. */
  lemma {:induction false} WhereSubBag<C, T(!new)>(s: seq<T>, holds: (C, T) -> bool, c: C)
    ensures multiset(Where(s, holds, c)) <= multiset(s)
  {
    if s != [] {
      WhereSubBag(s[1..], holds, c);
      assert s == [s[0]] + s[1..];
    }
  }

  /** The query as the builder chains it: each `where` narrows the previous result. */
  function Run<C, T(!new)>(s: seq<T>, holds: (C, T) -> bool, q: seq<C>): (r: seq<T>)
    ensures |r| <= |s|
    ensures forall x :: x in r <==> x in s && AllHold(holds, q, x)
    ensures multiset(r) <= multiset(s)
    decreases |q|
  {
    if q == [] then s
    else
      var r := Where(Run(s, holds, q[..|q| - 1]), holds, q[|q| - 1]);
      WhereSubBag(Run(s, holds, q[..|q| - 1]), holds, q[|q| - 1]);
      assert q == q[..|q| - 1] + [q[|q| - 1]];
      assert forall x :: AllHold(holds, q, x) <==> AllHold(holds, q[..|q| - 1], x) && holds(q[|q| - 1], x)
        by {
          forall x ensures AllHold(holds, q, x) <==> AllHold(holds, q[..|q| - 1], x) && holds(q[|q| - 1], x) {
            AllHoldSnoc(holds, q[..|q| - 1], q[|q| - 1], x);
          }
        }
      r
  }

  lemma {:induction false} WhereOfWhereAll<C, T(!new)>(s: seq<T>, holds: (C, T) -> bool, q: seq<C>, c: C)
    ensures Where(WhereAll(s, holds, q), holds, c) == WhereAll(s, holds, q + [c])
  {
    if s != [] {
      WhereOfWhereAll(s[1..], holds, q, c);
      AllHoldSnoc(holds, q, c, s[0]);
      var rest := WhereAll(s[1..], holds, q);
      if AllHold(holds, q, s[0]) {
        assert WhereAll(s, holds, q) == [s[0]] + rest;
        assert ([s[0]] + rest)[1..] == rest;
      } else {
        assert WhereAll(s, holds, q) == rest;
      }
    }
  }

  /** Chaining the clauses one by one gives exactly the one-pass conjunction, order included. */
  lemma {:induction false} RunIsWhereAll<C, T(!new)>(s: seq<T>, holds: (C, T) -> bool, q: seq<C>)
    ensures Run(s, holds, q) == WhereAll(s, holds, q)
    decreases |q|
  {
    if q == [] {
      WhereAllEmpty(s, holds, q);
    } else {
      var p := q[..|q| - 1];
      RunIsWhereAll(s, holds, p);
      WhereOfWhereAll(s, holds, p, q[|q| - 1]);
      assert p + [q[|q| - 1]] == q;
    }
  }

  /** A query no row satisfies returns nothing. */
  lemma {:induction false} WhereAllNone<C, T(!new)>(s: seq<T>, holds: (C, T) -> bool, q: seq<C>)
    requires forall x :: x in s ==> !AllHold(holds, q, x)
    ensures WhereAll(s, holds, q) == []
  {
    if s != [] {
      assert s[0] in s;
      WhereAllNone(s[1..], holds, q);
    }
  }

  /** The empty query returns the whole table. */
  lemma {:induction false} WhereAllEmpty<C, T(!new)>(s: seq<T>, holds: (C, T) -> bool, q: seq<C>)
    requires q == []
    ensures WhereAll(s, holds, q) == s
  {
    if s != [] {
      WhereAllEmpty(s[1..], holds, q);
      assert s == [s[0]] + s[1..];
    }
  }
}
