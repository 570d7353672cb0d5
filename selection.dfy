/**
 * Ordering and limiting a result: `orderBy(col)` and `latest()` (which orders
 * by `created_at` descending) are a sort by an integer key, `take(n)` keeps the
 * first n rows, `paginate(n)` cuts one page.
 */
module Selection {

  ghost predicate SortedBy<T>(s: seq<T>, key: T -> int) {
    forall i, j :: 0 <= i < j < |s| ==> key(s[i]) <= key(s[j])
  }

  function Min(a: nat, b: nat): nat { if a <= b then a else b }

  /** Putting a row in front of a sorted run keeps it sorted when its key is not above the run's first. */
  lemma ConsSorted<T>(y: T, r: seq<T>, key: T -> int)
    requires SortedBy(r, key)
    requires r == [] || key(y) <= key(r[0])
    ensures SortedBy([y] + r, key)
  {
    var s := [y] + r;
    forall i, j | 0 <= i < j < |s| ensures key(s[i]) <= key(s[j]) {
      if i == 0 && j > 1 {
        assert key(r[0]) <= key(r[j - 1]);
      }
    }
  }

  /** Insert x in front of the first row with a key not smaller than its own. */
  function Insert<T(!new)>(x: T, s: seq<T>, key: T -> int): (r: seq<T>)
    requires SortedBy(s, key)
    ensures SortedBy(r, key)
    ensures multiset(r) == multiset(s) + multiset{x}
    ensures |r| == |s| + 1
    ensures r[0] == x || (s != [] && r[0] == s[0])
  {
    if s == [] || key(x) <= key(s[0]) then
      ConsSorted(x, s, key);
      [x] + s
    else
      var rest := Insert(x, s[1..], key);
      assert s == [s[0]] + s[1..];
      ConsSorted(s[0], rest, key);
      [s[0]] + rest
  }

  lemma MultisetMembers<T>(r: seq<T>, s: seq<T>)
    requires multiset(r) == multiset(s)
    ensures forall x :: x in r <==> x in s
  {
    forall x ensures x in r <==> x in s {
      assert x in r <==> x in multiset(r);
      assert x in s <==> x in multiset(s);
    }
  }

  /** The rows ordered by ascending key (an insertion sort; rows with equal keys keep their order). */
  function SortBy<T(!new)>(s: seq<T>, key: T -> int): (r: seq<T>)
    ensures SortedBy(r, key)
    ensures multiset(r) == multiset(s)
    ensures |r| == |s|
    ensures forall x :: x in r <==> x in s
  {
    if s == [] then []
    else
      assert s == [s[0]] + s[1..];
      var r := Insert(s[0], SortBy(s[1..], key), key);
      MultisetMembers(r, s);
      r
  }

  /** `take(n)`: the first n rows. */
  function Take<T>(s: seq<T>, n: nat): (r: seq<T>)
    ensures |r| == Min(n, |s|)
    ensures r == s[..|r|]
  {
    if |s| <= n then s else s[..n]
  }

  lemma TakeSorted<T>(s: seq<T>, key: T -> int, n: nat)
    requires SortedBy(s, key)
    ensures SortedBy(Take(s, n), key)
    ensures multiset(Take(s, n)) <= multiset(s)
    ensures forall x :: x in Take(s, n) ==> x in s
    ensures forall x :: x in s && x !in Take(s, n) ==> n == 0 || key(Take(s, n)[|Take(s, n)| - 1]) <= key(x)
  {
    var r := Take(s, n);
    assert s == r + s[|r|..];
    assert multiset(s) == multiset(r) + multiset(s[|r|..]);
    forall x | x in s && x !in r && n != 0 ensures key(r[|r| - 1]) <= key(x) {
      var j :| 0 <= j < |s| && s[j] == x;
    }
  }

  /**
   * `orderBy(key)->take(n)`: at most n rows, in key order, drawn from s, and no row
   * left out has a smaller key than the last one taken.
   */
  function TopBy<T(!new)>(s: seq<T>, key: T -> int, n: nat): (r: seq<T>)
    ensures |r| == Min(n, |s|)
    ensures SortedBy(r, key)
    ensures multiset(r) <= multiset(s)
    ensures forall x :: x in r ==> x in s
    ensures forall x :: x in s && x !in r ==> n == 0 || key(r[|r| - 1]) <= key(x)
  {
    var sorted := SortBy(s, key);
    TakeSorted(sorted, key, n);
    Take(sorted, n)
  }

  /** Page number `page` (1-based; Laravel reads a page below 1 as 1) of `size` rows. */
  function Page<T(!new)>(s: seq<T>, page: nat, size: nat): (r: seq<T>)
    ensures |r| <= size
    ensures multiset(r) <= multiset(s)
    ensures forall x :: x in r ==> x in s
    ensures PageStart(page, size) <= |s| ==> r <= s[PageStart(page, size)..]
    ensures PageStart(page, size) + size <= |s| ==> |r| == size
  {
    var start := PageStart(page, size);
    if |s| <= start then []
    else
      var stop := if start + size <= |s| then start + size else |s|;
      assert s == s[..start] + s[start..stop] + s[stop..];
      assert multiset(s) == multiset(s[..start]) + multiset(s[start..stop]) + multiset(s[stop..]);
      s[start..stop]
  }

  function PageStart(page: nat, size: nat): nat {
    if page <= 1 then 0 else (page - 1) * size
  }
}
