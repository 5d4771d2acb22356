/**
 Paging through separately ordered queries.

 Every page comes from its own `ORDER BY key LIMIT ... OFFSET ...` query without a tie-breaker, so each
 query may arrange rows of equal key as it likes. The pages are together the result exactly if no page
 boundary falls between two rows of equal key.
 */
module Arrangements {
  import opened Arithmetic
  import opened Paging

  predicate Sorted<T(!new)>(rows: seq<T>, key: T -> int) {
    forall i, j :: 0 <= i <= j < |rows| ==> key(rows[i]) <= key(rows[j])
  }

  /** One order in which a query may return the rows. */
  predicate Arranges<T(==,!new)>(rows: seq<T>, key: T -> int, arranged: seq<T>) {
    multiset(arranged) == multiset(rows) && Sorted(arranged, key)
  }

  /** How a database orders the rows of one query. */
  type Orderer<!T> = seq<T> -> seq<T>

  ghost predicate OrdersBy<T(!new)>(order: Orderer<T>, key: T -> int) {
    forall rows: seq<T> :: Arranges(rows, key, order(rows))
  }

  predicate Distinct<T(==)>(rows: seq<T>) {
    forall i, j :: 0 <= i < j < |rows| ==> rows[i] != rows[j]
  }

  /** Page 1 of the first query's arrangement, page 2 of the second's, and so on. */
  function PagesFrom<T>(arranged: seq<seq<T>>, limit: nat): seq<T> {
    if arranged == [] then []
    else PagesFrom(arranged[..|arranged| - 1], limit) + PageOf(arranged[|arranged| - 1], |arranged|, limit)
  }

  ghost predicate AllArrange<T(!new)>(rows: seq<T>, key: T -> int, arranged: seq<seq<T>>) {
    forall k :: 0 <= k < |arranged| ==> Arranges(rows, key, arranged[k])
  }

  /** However the queries break ties, reading all pages gives every row, each as often as it occurs. */
  ghost predicate PagesAlwaysCover<T(!new)>(rows: seq<T>, key: T -> int, limit: nat)
    requires limit >= 1
  {
    forall arranged: seq<seq<T>> ::
      |arranged| == TotalPages(|rows|, limit) && AllArrange(rows, key, arranged) ==>
        multiset(PagesFrom(arranged, limit)) == multiset(rows)
  }

  /** Rows p - 1 and p of the ordered result have different keys, or p is not inside the result. */
  predicate CleanAt<T>(arranged: seq<T>, key: T -> int, p: int) {
    0 < p < |arranged| ==> key(arranged[p - 1]) != key(arranged[p])
  }

  ghost predicate CleanBoundaries<T(!new)>(arranged: seq<T>, key: T -> int, limit: nat) {
    forall k: nat {:trigger CleanAt(arranged, key, k * limit)} :: CleanAt(arranged, key, k * limit)
  }

  // ---------------------------------------------------------------- the keys are the same in every order

  function Keys<T>(rows: seq<T>, key: T -> int): seq<int> {
    seq(|rows|, i requires 0 <= i < |rows| => key(rows[i]))
  }

  lemma SameRest<T(!new)>(x: T, s: seq<T>, t: seq<T>)
    requires multiset([x] + s) == multiset([x] + t)
    ensures multiset(s) == multiset(t)
  {
    assert multiset([x] + s) == multiset([x]) + multiset(s);
    assert multiset([x] + t) == multiset([x]) + multiset(t);
    assert forall y: T :: multiset(s)[y] == multiset([x] + s)[y] - multiset([x])[y];
    assert forall y: T :: multiset(t)[y] == multiset([x] + t)[y] - multiset([x])[y];
  }

  function Without<T>(b: seq<T>, i: nat): seq<T>
    requires i < |b|
  {
    b[..i] + b[i + 1..]
  }

  /** The occurrence at `i` moved to the front. */
  lemma MovedToFront<T>(b: seq<T>, i: nat)
    requires i < |b|
    ensures multiset([b[i]] + Without(b, i)) == multiset(b)
  {
    assert b == b[..i] + [b[i]] + b[i + 1..];
  }

  lemma {:induction false} KeysOfPermutation<T(!new)>(a: seq<T>, b: seq<T>, key: T -> int)
    requires multiset(a) == multiset(b)
    ensures multiset(Keys(a, key)) == multiset(Keys(b, key))
    decreases |a|
  {
    if a == [] {
      assert |b| == |multiset(b)| == 0;
    } else {
      assert a[0] in multiset(b);
      var i :| 0 <= i < |b| && b[i] == a[0];
      var rest := Without(b, i);
      assert a == [a[0]] + a[1..];
      MovedToFront(b, i);
      SameRest(a[0], a[1..], rest);
      KeysOfPermutation(a[1..], rest, key);
      assert Keys(a, key) == [key(a[0])] + Keys(a[1..], key);
      assert Keys(rest, key) == Without(Keys(b, key), i);
      MovedToFront(Keys(b, key), i);
    }
  }

  predicate Ascending(a: seq<int>) {
    forall i, j :: 0 <= i <= j < |a| ==> a[i] <= a[j]
  }

  lemma FirstIsLeast(a: seq<int>, x: int)
    requires Ascending(a) && a != [] && x in multiset(a)
    ensures a[0] <= x
  {
    var i :| 0 <= i < |a| && a[i] == x;
  }

  lemma SameFirst(a: seq<int>, b: seq<int>)
    requires Ascending(a) && Ascending(b) && multiset(a) == multiset(b) && a != []
    ensures b != [] && a[0] == b[0] && Ascending(a[1..]) && Ascending(b[1..])
  {
    assert a[0] in multiset(b);
    FirstIsLeast(b, a[0]);
    assert b[0] in multiset(a);
    FirstIsLeast(a, b[0]);
  }

  lemma {:induction false} AscendingIsUnique(a: seq<int>, b: seq<int>)
    requires Ascending(a) && Ascending(b) && multiset(a) == multiset(b)
    ensures a == b
    decreases |a|
  {
    hide Ascending;
    if a == [] {
      assert |b| == |multiset(b)| == 0;
    } else {
      SameFirst(a, b);
      assert a == [a[0]] + a[1..] && b == [b[0]] + b[1..];
      SameRest(a[0], a[1..], b[1..]);
      AscendingIsUnique(a[1..], b[1..]);
    }
  }

  lemma SameKeys<T(!new)>(rows: seq<T>, key: T -> int, a: seq<T>, b: seq<T>)
    requires Arranges(rows, key, a) && Arranges(rows, key, b)
    ensures |a| == |b| == |rows| && forall i :: 0 <= i < |a| ==> key(a[i]) == key(b[i])
  {
    assert |a| == |multiset(a)| && |b| == |multiset(b)| && |rows| == |multiset(rows)|;
    KeysOfPermutation(a, b, key);
    AscendingIsUnique(Keys(a, key), Keys(b, key));
    forall i | 0 <= i < |a|
      ensures key(a[i]) == key(b[i])
    {
      assert Keys(a, key)[i] == Keys(b, key)[i];
    }
  }

  // ---------------------------------------------------------------- clean boundaries

  lemma PrefixCount<T(!new)>(a: seq<T>, key: T -> int, p: nat, x: T)
    requires Sorted(a, key) && 0 < p < |a| && key(a[p - 1]) < key(a[p])
    ensures multiset(a[..p])[x] == if key(x) <= key(a[p - 1]) then multiset(a)[x] else 0
  {
    assert a == a[..p] + a[p..];
    if key(x) <= key(a[p - 1]) {
      assert x !in a[p..];
    } else {
      assert x !in a[..p];
    }
  }

  /** Up to a clean boundary every order has the same rows. */
  lemma SamePrefix<T(!new)>(rows: seq<T>, key: T -> int, a: seq<T>, b: seq<T>, p: nat)
    requires Arranges(rows, key, a) && Arranges(rows, key, b) && p <= |rows| && CleanAt(a, key, p)
    ensures |a| == |b| == |rows| && multiset(a[..p]) == multiset(b[..p])
  {
    SameKeys(rows, key, a, b);
    if p == |rows| {
      assert a[..p] == a && b[..p] == b;
    } else if p > 0 {
      forall x: T
        ensures multiset(a[..p])[x] == multiset(b[..p])[x]
      {
        PrefixCount(a, key, p, x);
        PrefixCount(b, key, p, x);
      }
    }
  }

  lemma PageIsSlice<T>(rows: seq<T>, page: nat, limit: nat)
    requires page >= 1
    ensures (page - 1) * limit >= 0 && page * limit == (page - 1) * limit + limit
    ensures PageOf(rows, page, limit) == rows[Clamp((page - 1) * limit, |rows|)..Clamp(page * limit, |rows|)]
  {
  }

  /** Between two clean boundaries every order has the same rows. */
  lemma SameSlice<T(!new)>(rows: seq<T>, key: T -> int, a: seq<T>, b: seq<T>, p: nat, r: nat)
    requires Arranges(rows, key, a) && Arranges(rows, key, b) && p <= r <= |rows|
    requires CleanAt(a, key, p) && CleanAt(a, key, r)
    ensures |a| == |b| == |rows| && multiset(a[..p]) + multiset(b[p..r]) == multiset(a[..r])
  {
    hide Arranges, CleanAt;
    SamePrefix(rows, key, a, b, p);
    SamePrefix(rows, key, a, b, r);
    assert b[..r] == b[..p] + b[p..r];
  }

  lemma CleanWhenClamped<T(!new)>(base: seq<T>, key: T -> int, limit: nat, k: nat)
    requires CleanBoundaries(base, key, limit)
    ensures k * limit >= 0 && CleanAt(base, key, Clamp(k * limit, |base|))
  {
    assert CleanAt(base, key, k * limit);
  }

  lemma {:induction false} CleanPages<T(!new)>(
    rows: seq<T>, key: T -> int, limit: nat, base: seq<T>, arranged: seq<seq<T>>)
    requires Arranges(rows, key, base) && AllArrange(rows, key, arranged) && CleanBoundaries(base, key, limit)
    ensures |base| == |rows|
    ensures multiset(PagesFrom(arranged, limit)) == multiset(base[..Clamp(|arranged| * limit, |base|)])
    decreases |arranged|
  {
    hide Arranges, CleanAt, CleanBoundaries, Clamp;
    SameKeys(rows, key, base, base);
    NothingShown(base, limit);
    if arranged != [] {
      var k := |arranged|;
      var last := arranged[k - 1];
      CleanPages(rows, key, limit, base, arranged[..k - 1]);
      PageIsSlice(last, k, limit);
      CleanWhenClamped(base, key, limit, k - 1);
      CleanWhenClamped(base, key, limit, k);
      ClampOrder((k - 1) * limit, k * limit, |rows|);
      SameKeys(rows, key, base, last);
      SameSlice(rows, key, base, last, Clamp((k - 1) * limit, |rows|), Clamp(k * limit, |rows|));
    }
  }

  lemma NothingShown<T>(base: seq<T>, limit: nat)
    ensures base[..Clamp(0 * limit, |base|)] == []
  {
  }

  lemma ClampOrder(i: int, j: int, n: nat)
    requires i <= j
    ensures Clamp(i, n) <= Clamp(j, n) <= n
  {
  }

  lemma AllPagesReachTheEnd(total: nat, limit: nat)
    requires limit >= 1
    ensures Clamp(TotalPages(total, limit) * limit, total) == total
  {
    if total > 0 {
      LastPage(total, limit);
    }
  }

  // ---------------------------------------------------------------- a tied boundary

  /** The order that exchanges the two rows on either side of position p. */
  function Exchanged<T>(a: seq<T>, p: nat): seq<T>
    requires 0 < p < |a|
  {
    a[p - 1 := a[p]][p := a[p - 1]]
  }

  lemma ExchangedArranges<T(!new)>(rows: seq<T>, key: T -> int, a: seq<T>, p: nat)
    requires Arranges(rows, key, a) && 0 < p < |a| && key(a[p - 1]) == key(a[p])
    ensures Arranges(rows, key, Exchanged(a, p))
  {
    var b := Exchanged(a, p);
    assert a == a[..p - 1] + [a[p - 1], a[p]] + a[p + 1..];
    assert b == a[..p - 1] + [a[p], a[p - 1]] + a[p + 1..];
    assert multiset([a[p], a[p - 1]]) == multiset([a[p - 1], a[p]]);
    assert forall i :: 0 <= i < |a| ==> key(b[i]) == key(a[i]);
  }

  /** All queries return `a`, but the one for page k + 1 exchanges the rows around its start. */
  function TiedQueries<T>(a: seq<T>, k: nat, limit: nat): (queries: seq<seq<T>>)
    requires limit >= 1 && 0 < k * limit < |a|
    ensures |queries| == TotalPages(|a|, limit)
  {
    seq(TotalPages(|a|, limit), i => if i == k then Exchanged(a, k * limit) else a)
  }

  lemma TiedSlice<T>(a: seq<T>, k: nat, limit: nat, n: nat)
    requires limit >= 1 && 0 < k * limit < |a| && 1 <= n <= TotalPages(|a|, limit)
    ensures PageOf(TiedQueries(a, k, limit)[n - 1], n, limit) ==
            a[k * limit := a[k * limit - 1]][Clamp((n - 1) * limit, |a|)..Clamp(n * limit, |a|)]
  {
    hide TotalPages;
    PageIsSlice(TiedQueries(a, k, limit)[n - 1], n, limit);
    PagesApart(k, n, limit);
  }

  lemma SliceFits(n: nat, limit: nat, total: nat)
    requires n >= 1
    ensures Clamp((n - 1) * limit, total) <= Clamp(n * limit, total) <= total
  {
    Distribute(n, 1, limit);
  }

  lemma {:induction false} TiedPages<T>(a: seq<T>, k: nat, limit: nat, n: nat)
    requires limit >= 1 && 0 < k * limit < |a| && n <= TotalPages(|a|, limit)
    ensures PagesFrom(TiedQueries(a, k, limit)[..n], limit) ==
            a[k * limit := a[k * limit - 1]][..Clamp(n * limit, |a|)]
    decreases n
  {
    hide Clamp, TotalPages, TiedQueries, PageOf;
    NothingShown(a[k * limit := a[k * limit - 1]], limit);
    if n > 0 {
      var queries, shown := TiedQueries(a, k, limit), a[k * limit := a[k * limit - 1]];
      TiedPages(a, k, limit, n - 1);
      assert queries[..n][..n - 1] == queries[..n - 1];
      TiedSlice(a, k, limit, n);
      SliceFits(n, limit, |a|);
      var from, to := Clamp((n - 1) * limit, |a|), Clamp(n * limit, |a|);
      assert shown[..to] == shown[..from] + shown[from..to];
    }
  }

  /** Position k * limit lies in page k + 1 and in no other, position k * limit - 1 in page k. */
  lemma PagesApart(k: nat, n: nat, limit: nat)
    requires limit >= 1 && n >= 1
    ensures n - 1 > k ==> (n - 1) * limit > k * limit
    ensures n - 1 < k ==> n * limit <= k * limit
    ensures n - 1 == k ==> (n - 1) * limit == k * limit
  {
    Distribute(n - 1, k, limit);
    MulSign(n - 1 - k, limit);
    Distribute(n, k, limit);
    MulSign(n - k, limit);
  }

  lemma Distribute(a: int, b: int, c: int)
    ensures (a - b) * c == a * c - b * c
  {
  }

  /** Where the boundary after page k falls between rows of equal key, some orders show the row before it twice
      and the row after it not at all. */
  lemma TiedBoundaryRepeats<T(!new)>(rows: seq<T>, key: T -> int, a: seq<T>, k: nat, limit: nat)
    requires limit >= 1 && Arranges(rows, key, a) && 0 < k * limit < |a| && !CleanAt(a, key, k * limit)
    ensures var queries := TiedQueries(a, k, limit);
            && |queries| == TotalPages(|rows|, limit) && AllArrange(rows, key, queries)
            && PagesFrom(queries, limit) == a[k * limit := a[k * limit - 1]]
  {
    SameKeys(rows, key, a, a);
    var queries, p := TiedQueries(a, k, limit), k * limit;
    ExchangedArranges(rows, key, a, p);
    TiedPages(a, k, limit, |queries|);
    AllPagesReachTheEnd(|a|, limit);
    assert queries[..|queries|] == queries;
    assert a[p := a[p - 1]][..|a|] == a[p := a[p - 1]];
  }

  /** Two rows of equal key, one to a page: the first can be shown twice and the second not at all. */
  lemma TwoTiedRows<T(!new)>(x: T, y: T, key: T -> int)
    requires key(x) == key(y)
    ensures AllArrange([x, y], key, TiedQueries([x, y], 1, 1))
    ensures PagesFrom(TiedQueries([x, y], 1, 1), 1) == [x, x]
  {
    hide TiedQueries, PagesFrom;
    assert !CleanAt([x, y], key, 1 * 1);
    TiedBoundaryRepeats([x, y], key, [x, y], 1, 1);
  }

  lemma RepeatedDiffers<T(!new)>(rows: seq<T>, a: seq<T>, p: nat)
    requires Distinct(rows) && multiset(a) == multiset(rows) && 0 < p < |a|
    ensures multiset(a[p := a[p - 1]]) != multiset(rows)
  {
    var shown, x := a[p := a[p - 1]], a[p - 1];
    assert shown == shown[..p - 1] + [x, x] + shown[p + 1..];
    assert multiset(shown)[x] >= 2;
    DistinctCount(rows, x);
  }

  lemma DistinctCount<T>(rows: seq<T>, x: T)
    requires Distinct(rows)
    ensures multiset(rows)[x] <= 1
  {
    if x in rows {
      var i :| 0 <= i < |rows| && rows[i] == x;
      var rest := Without(rows, i);
      assert x !in rest;
      MovedToFront(rows, i);
      assert multiset([x] + rest) == multiset([x]) + multiset(rest);
      assert multiset(rest)[x] == 0;
    }
  }

  // ---------------------------------------------------------------- the exact condition

  /** Reading all pages, each by its own query, gives every row exactly once however ties are broken, if and only
      if no page boundary inside the result falls between rows of equal key. */
  lemma PagesCoverIff<T(!new)>(rows: seq<T>, key: T -> int, limit: nat, arranged: seq<T>)
    requires limit >= 1 && Distinct(rows) && Arranges(rows, key, arranged)
    ensures PagesAlwaysCover(rows, key, limit) <==> CleanBoundaries(arranged, key, limit)
  {
    SameKeys(rows, key, arranged, arranged);
    if CleanBoundaries(arranged, key, limit) {
      forall queries: seq<seq<T>> | |queries| == TotalPages(|rows|, limit) && AllArrange(rows, key, queries)
        ensures multiset(PagesFrom(queries, limit)) == multiset(rows)
      {
        CleanPages(rows, key, limit, arranged, queries);
        AllPagesReachTheEnd(|rows|, limit);
        assert arranged[..|rows|] == arranged;
      }
    } else {
      var k: nat :| !CleanAt(arranged, key, k * limit);
      TiedBoundaryRepeats(rows, key, arranged, k, limit);
      RepeatedDiffers(rows, arranged, k * limit);
    }
  }

  /** Rows of pairwise different keys are always paged without loss. */
  lemma DistinctKeysCover<T(!new)>(rows: seq<T>, key: T -> int, limit: nat, arranged: seq<T>)
    requires limit >= 1 && Arranges(rows, key, arranged)
    requires forall i, j :: 0 <= i < j < |rows| ==> key(rows[i]) != key(rows[j])
    ensures PagesAlwaysCover(rows, key, limit)
  {
    assert Distinct(rows);
    PagesCoverIff(rows, key, limit, arranged);
    forall p | 0 < p < |arranged|
      ensures key(arranged[p - 1]) != key(arranged[p])
    {
      KeysAreApart(rows, key, arranged, p);
    }
  }

  lemma KeysAreApart<T(!new)>(rows: seq<T>, key: T -> int, arranged: seq<T>, p: nat)
    requires multiset(arranged) == multiset(rows) && 0 < p < |arranged|
    requires forall i, j :: 0 <= i < j < |rows| ==> key(rows[i]) != key(rows[j])
    ensures key(arranged[p - 1]) != key(arranged[p])
  {
    var x, y := arranged[p - 1], arranged[p];
    assert x in multiset(rows) && y in multiset(rows);
    if x == y {
      assert arranged == arranged[..p - 1] + [x, x] + arranged[p + 1..];
      assert multiset(arranged)[x] >= 2;
      DistinctCount(rows, x);
    }
  }
}
