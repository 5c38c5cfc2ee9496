/**
 The activity feed: the newest deployments and the newest webhooks of a user, merged by their
 printed time, which has whole seconds where the tables keep microseconds.
 */
module Activity {
  import opened Common
  import opened Sorting

  datatype Kind = Deployment | Webhook

  /** A table row; `instant` is in microseconds since the epoch. */
  datatype Item = Item(kind: Kind, id: int, instant: nat)

  const DEFAULT_LIMIT: nat := 40
  const MAX_LIMIT: nat := 100

  /** The printed time: fixed width, so its text order is its time order. */
  function Second(it: Item): nat {
    it.instant / 1_000_000
  }

  function EffectiveLimit(limit: int): (n: nat)
    ensures 0 < n <= MAX_LIMIT
  {
    if limit <= 0 || limit > MAX_LIMIT then DEFAULT_LIMIT else limit
  }

  function NewestFirst(): (Item, Item) -> bool {
    (a: Item, b: Item) => a.instant >= b.instant
  }

  function LatestPrinted(): (Item, Item) -> bool {
    (a: Item, b: Item) => Second(a) >= Second(b)
  }

  function Take<T>(xs: seq<T>, n: nat): seq<T> {
    if |xs| <= n then xs else xs[..n]
  }

  function Printed(xs: seq<Item>): seq<nat> {
    seq(|xs|, i requires 0 <= i < |xs| => Second(xs[i]))
  }

  /** A legal answer of a query for the newest `n` rows; rows of one instant come in any order. */
  ghost predicate IsNewest(rows: seq<Item>, n: nat, out: seq<Item>) {
    exists all :: SortOf(rows, all, NewestFirst()) && out == Take(all, n)
  }

  /** A legal feed; items of one printed second come in any order. */
  ghost predicate IsFeed(deps: seq<Item>, hooks: seq<Item>, n: nat, out: seq<Item>) {
    exists d, h, all :: IsNewest(deps, n, d) && IsNewest(hooks, n, h) && SortOf(d + h, all, LatestPrinted()) && out == Take(all, n)
  }

  method Newest(rows: seq<Item>, n: nat) returns (out: seq<Item>)
    ensures IsNewest(rows, n, out)
  {
    var all := Sort(rows, NewestFirst());
    out := Take(all, n);
  }

  method ListActivityForUser(deps: seq<Item>, hooks: seq<Item>, limit: int) returns (items: seq<Item>)
    ensures IsFeed(deps, hooks, EffectiveLimit(limit), items)
  {
    var n := limit;
    if limit <= 0 || limit > 100 {
      n := 40;
    }
    var d := Newest(deps, n);
    items := d;
    var h := Newest(hooks, n);
    items := items + h;
    items := Sort(items, LatestPrinted());
    ghost var all := items;
    if |items| > n {
      items := items[..n];
    }
    assert items == Take(all, n);
  }

  /** The printed time has whole seconds. */
  lemma PrintedSecond(it: Item)
    ensures Second(it) * 1_000_000 <= it.instant < (Second(it) + 1) * 1_000_000
  {
  }

  lemma TakenLength<T>(xs: seq<T>, n: nat)
    ensures |Take(xs, n)| == if |xs| <= n then |xs| else n
    ensures forall x :: x in Take(xs, n) ==> x in xs
  {
  }

  /** A feed is as long as it may be, and all its items are rows of the tables. */
  lemma FeedIsFull(deps: seq<Item>, hooks: seq<Item>, limit: int, out: seq<Item>)
    requires IsFeed(deps, hooks, EffectiveLimit(limit), out)
    ensures var n := if 1 <= limit <= 100 then limit else 40;
            |out| == if |deps| + |hooks| <= n then |deps| + |hooks| else n
    ensures forall it :: it in out ==> it in deps || it in hooks
  {
    var n := EffectiveLimit(limit);
    var d, h, all :| IsNewest(deps, n, d) && IsNewest(hooks, n, h) && SortOf(d + h, all, LatestPrinted()) && out == Take(all, n);
    hide *;
    NewestIsFull(deps, n, d);
    NewestIsFull(hooks, n, h);
    SortKeeps(d + h, all, LatestPrinted());
    TakenLength(all, n);
  }

  lemma NewestIsFull(rows: seq<Item>, n: nat, out: seq<Item>)
    requires IsNewest(rows, n, out)
    ensures |out| == (if |rows| <= n then |rows| else n) && forall it :: it in out ==> it in rows
  {
    var all :| SortOf(rows, all, NewestFirst()) && out == Take(all, n);
    hide *;
    SortKeeps(rows, all, NewestFirst());
    TakenLength(all, n);
  }

  lemma SortKeeps(rows: seq<Item>, all: seq<Item>, le: (Item, Item) -> bool)
    requires SortOf(rows, all, le)
    ensures |all| == |rows| && forall it :: it in all ==> it in rows
  {
    SameElements(rows, all);
    hide Sorted;
  }

  // ----- counting by time -----

  /** How many items were printed at `s` or later. */
  function Since(xs: seq<Item>, s: int): nat {
    if xs == [] then 0 else Since(xs[..|xs| - 1], s) + if Second(xs[|xs| - 1]) >= s then 1 else 0
  }

  function Min(a: nat, b: nat): nat {
    if a <= b then a else b
  }

  lemma {:induction false} SinceConcat(xs: seq<Item>, ys: seq<Item>, s: int)
    ensures Since(xs + ys, s) == Since(xs, s) + Since(ys, s)
  {
    if ys == [] {
      assert xs + ys == xs;
    } else {
      var n := |ys| - 1;
      assert (xs + ys)[..|xs + ys| - 1] == xs + ys[..n];
      SinceConcat(xs, ys[..n], s);
    }
  }

  lemma {:induction false} SinceIsOrderless(xs: seq<Item>, ys: seq<Item>, s: int)
    requires multiset(xs) == multiset(ys)
    ensures Since(xs, s) == Since(ys, s)
  {
    SameElements(xs, ys);
    if xs != [] {
      var n := |xs| - 1;
      assert xs[n] in ys;
      var k :| 0 <= k < |ys| && ys[k] == xs[n];
      TakenOut(xs, n, s);
      TakenOut(ys, k, s);
      assert xs[..n] + xs[n + 1..] == xs[..n];
      hide Since;
      SinceIsOrderless(xs[..n], ys[..k] + ys[k + 1..], s);
    }
  }

  lemma WithoutOne(a: seq<Item>, x: Item, b: seq<Item>)
    ensures multiset(a + b) == multiset(a + [x] + b) - multiset{x}
  {
    assert multiset(a + [x] + b) == multiset(a + b) + multiset{x};
  }

  lemma SinceOfOne(x: Item, s: int)
    ensures Since([x], s) == if Second(x) >= s then 1 else 0
  {
  }

  lemma TakenOut(xs: seq<Item>, k: nat, s: int)
    requires k < |xs|
    ensures multiset(xs[..k] + xs[k + 1..]) == multiset(xs) - multiset{xs[k]}
    ensures Since(xs, s) == Since(xs[..k] + xs[k + 1..], s) + if Second(xs[k]) >= s then 1 else 0
  {
    var a, x, b := xs[..k], xs[k], xs[k + 1..];
    assert xs == a + [x] + b;
    hide *;
    WithoutOne(a, x, b);
    SinceConcat(a + [x], b, s);
    SinceConcat(a, [x], s);
    SinceConcat(a, b, s);
    SinceOfOne(x, s);
  }

  ghost predicate Descending(xs: seq<Item>) {
    Sorted(xs, LatestPrinted())
  }

  lemma {:induction false} SinceIsALength(xs: seq<Item>, s: int)
    requires Descending(xs)
    ensures Since(xs, s) <= |xs|
    ensures forall i :: 0 <= i < |xs| ==> (Second(xs[i]) >= s <==> i < Since(xs, s))
  {
    if xs != [] {
      var n := |xs| - 1;
      SinceIsALength(xs[..n], s);
      assert forall i :: 0 <= i < n ==> xs[..n][i] == xs[i] && LatestPrinted()(xs[i], xs[n]);
    }
  }

  lemma SinceOfTake(xs: seq<Item>, n: nat, s: int)
    requires Descending(xs)
    ensures Since(Take(xs, n), s) == Min(n, Since(xs, s))
  {
    var t := Take(xs, n);
    SinceIsALength(xs, s);
    SinceIsALength(t, s);
    var a, b := Since(t, s), Min(n, Since(xs, s));
    assert forall i :: 0 <= i < |t| ==> t[i] == xs[i];
    assert a < |t| ==> Second(t[a]) < s;
    assert b < |t| ==> (Second(xs[b]) < s || b == n);
  }

  /** The counts determine the printed times of a list that is sorted by them. */
  lemma CountsDeterminePrinted(xs: seq<Item>, ys: seq<Item>)
    requires Descending(xs) && Descending(ys) && forall s :: Since(xs, s) == Since(ys, s)
    ensures Printed(xs) == Printed(ys)
  {
    assert |xs| == |ys| by {
      SinceIsALength(xs, 0);
      SinceIsALength(ys, 0);
      assert |xs| > 0 ==> Second(xs[|xs| - 1]) >= 0;
      assert |ys| > 0 ==> Second(ys[|ys| - 1]) >= 0;
    }
    forall i | 0 <= i < |xs| ensures Second(xs[i]) == Second(ys[i]) {
      SinceIsALength(xs, Second(xs[i]));
      SinceIsALength(ys, Second(xs[i]));
      SinceIsALength(xs, Second(ys[i]));
      SinceIsALength(ys, Second(ys[i]));
    }
  }

  lemma NewestIsDescending(xs: seq<Item>)
    requires Sorted(xs, NewestFirst())
    ensures Descending(xs)
  {
    forall i, j | 0 <= i < j < |xs| ensures LatestPrinted()(xs[i], xs[j]) {
      assert NewestFirst()(xs[i], xs[j]);
    }
  }

  lemma SinceOfNewest(rows: seq<Item>, n: nat, out: seq<Item>, s: int)
    requires IsNewest(rows, n, out)
    ensures Since(out, s) == Min(n, Since(rows, s))
  {
    var all :| SortOf(rows, all, NewestFirst()) && out == Take(all, n);
    NewestIsDescending(all);
    SinceOfTake(all, n, s);
    SinceIsOrderless(rows, all, s);
  }

  lemma TakeStaysDescending(xs: seq<Item>, n: nat)
    requires Descending(xs)
    ensures Descending(Take(xs, n))
  {
  }

  /** Fetching only the newest `n` of each table loses nothing: the feed shows exactly the times
      of the newest `n` items of both tables together. */
  lemma FeedShowsTheNewestTimes(deps: seq<Item>, hooks: seq<Item>, n: nat, out: seq<Item>, all: seq<Item>)
    requires IsFeed(deps, hooks, n, out) && SortOf(deps + hooks, all, NewestFirst())
    ensures Printed(out) == Printed(Take(all, n))
  {
    var d, h, m :| IsNewest(deps, n, d) && IsNewest(hooks, n, h) && SortOf(d + h, m, LatestPrinted()) && out == Take(m, n);
    NewestIsDescending(all);
    TakeStaysDescending(m, n);
    TakeStaysDescending(all, n);
    hide *;
    forall s ensures Since(out, s) == Since(Take(all, n), s) {
      SinceOfTake(m, n, s);
      SinceIsOrderless(d + h, m, s);
      SinceConcat(d, h, s);
      SinceOfNewest(deps, n, d, s);
      SinceOfNewest(hooks, n, h, s);
      SinceOfTake(all, n, s);
      SinceIsOrderless(deps + hooks, all, s);
      SinceConcat(deps, hooks, s);
    }
    CountsDeterminePrinted(out, Take(all, n));
  }

  // ----- which items are shown -----

  ghost predicate Unique(xs: seq<Item>) {
    forall i, j :: 0 <= i < j < |xs| ==> xs[i] != xs[j]
  }

  /** No two rows carry the same microsecond. */
  ghost predicate DistinctInstants(xs: seq<Item>) {
    Unique(xs) && forall a, b :: a in xs && b in xs && a.instant == b.instant ==> a == b
  }

  function Elems(xs: seq<Item>): set<Item> {
    set x | x in xs
  }

  lemma {:induction false} UniqueIsASet(xs: seq<Item>)
    ensures |Elems(xs)| <= |xs| && (Unique(xs) <==> |Elems(xs)| == |xs|)
  {
    if xs != [] {
      var n := |xs| - 1;
      UniqueIsASet(xs[..n]);
      assert xs == xs[..n] + [xs[n]];
      assert Elems(xs) == Elems(xs[..n]) + {xs[n]};
      if xs[n] in xs[..n] {
        assert Elems(xs) == Elems(xs[..n]);
      } else {
        assert |Elems(xs)| == |Elems(xs[..n])| + 1;
        assert Unique(xs) <==> Unique(xs[..n]);
      }
    }
  }

  lemma UniqueIsOrderless(xs: seq<Item>, ys: seq<Item>)
    requires multiset(xs) == multiset(ys)
    ensures Elems(xs) == Elems(ys) && (Unique(xs) <==> Unique(ys))
  {
    SameElements(xs, ys);
    UniqueIsASet(xs);
    UniqueIsASet(ys);
    assert Elems(xs) == Elems(ys);
  }

  /** A row that comes before `x` among the rows of its table does so among all rows. */
  lemma StaysBefore(all: seq<Item>, rows: seq<Item>, i: nat, p: nat, q: nat)
    requires Sorted(all, NewestFirst()) && DistinctInstants(all)
    requires Sorted(rows, NewestFirst()) && Unique(rows) && Elems(rows) <= Elems(all)
    requires q < p < |rows| && i < |all| && all[i] == rows[p]
    ensures rows[q] in all[..i]
  {
    var x, y := rows[p], rows[q];
    assert NewestFirst()(y, x) && y != x;
    assert y in Elems(rows);
    var k :| 0 <= k < |all| && all[k] == y;
    assert i < k ==> NewestFirst()(x, y);
    assert all[..i][k] == y;
  }

  /** A row among the newest `n` of both tables is among the newest `n` of its own. */
  lemma NewestSurvives(all: seq<Item>, rows: seq<Item>, n: nat, x: Item)
    requires Sorted(all, NewestFirst()) && DistinctInstants(all)
    requires Sorted(rows, NewestFirst()) && Unique(rows) && Elems(rows) <= Elems(all)
    requires x in Take(all, n) && x in rows
    ensures x in Take(rows, n)
  {
    var p :| 0 <= p < |rows| && rows[p] == x;
    var i :| 0 <= i < |Take(all, n)| && all[i] == x;
    assert Unique(rows[..p]) && Unique(all[..i]);
    assert Elems(rows[..p]) <= Elems(all[..i]) by {
      hide Sorted, DistinctInstants, Unique;
      forall y | y in rows[..p] ensures y in all[..i] {
        var q :| 0 <= q < p && rows[q] == y;
        StaysBefore(all, rows, i, p, q);
      }
    }
    hide Sorted, DistinctInstants, Unique;
    UniqueIsASet(rows[..p]);
    UniqueIsASet(all[..i]);
    SubsetIsNoLarger(Elems(rows[..p]), Elems(all[..i]));
    assert Take(rows, n)[p] == x;
  }

  lemma {:induction false} SubsetIsNoLarger(a: set<Item>, b: set<Item>)
    requires a <= b
    ensures |a| <= |b| && (|a| == |b| ==> a == b)
  {
    assert b == a + (b - a);
    assert |b| == |a| + |b - a|;
  }

  lemma SortedRowsAreDistinct(rows: seq<Item>, sorted: seq<Item>)
    requires DistinctInstants(rows) && multiset(rows) == multiset(sorted)
    ensures DistinctInstants(sorted) && Elems(sorted) == Elems(rows)
  {
    SameElements(rows, sorted);
    UniqueIsOrderless(rows, sorted);
  }

  lemma PartsAreDistinct(deps: seq<Item>, hooks: seq<Item>)
    requires DistinctInstants(deps + hooks)
    ensures DistinctInstants(deps) && DistinctInstants(hooks)
    ensures Elems(deps) <= Elems(deps + hooks) && Elems(hooks) <= Elems(deps + hooks) && Elems(deps) !! Elems(hooks)
  {
    var both := deps + hooks;
    assert forall i :: 0 <= i < |deps| ==> both[i] == deps[i];
    assert forall i :: 0 <= i < |hooks| ==> both[|deps| + i] == hooks[i];
  }

  lemma DisjointUnion(d: seq<Item>, h: seq<Item>)
    requires Unique(d) && Unique(h) && Elems(d) !! Elems(h)
    ensures Unique(d + h) && Elems(d + h) == Elems(d) + Elems(h)
  {
    forall i, j | 0 <= i < j < |d + h| ensures (d + h)[i] != (d + h)[j] {
      assert i < |d| ==> d[i] in Elems(d);
      assert j >= |d| ==> h[j - |d|] in Elems(h);
    }
  }

  /** The fetched rows are distinct and hold the newest `n` items of both tables. */
  lemma FetchHoldsTheNewest(deps: seq<Item>, hooks: seq<Item>, n: nat, all: seq<Item>, d: seq<Item>, h: seq<Item>)
    requires DistinctInstants(deps + hooks) && SortOf(deps + hooks, all, NewestFirst())
    requires IsNewest(deps, n, d) && IsNewest(hooks, n, h)
    ensures Unique(d + h) && Elems(Take(all, n)) <= Elems(d + h)
  {
    var ds :| SortOf(deps, ds, NewestFirst()) && d == Take(ds, n);
    var hs :| SortOf(hooks, hs, NewestFirst()) && h == Take(hs, n);
    PartsAreDistinct(deps, hooks);
    SortedRowsAreDistinct(deps + hooks, all);
    SortedRowsAreDistinct(deps, ds);
    SortedRowsAreDistinct(hooks, hs);
    assert Elems(d) <= Elems(ds) && Elems(h) <= Elems(hs);
    DisjointUnion(d, h);
    forall x | x in Elems(Take(all, n)) ensures x in Elems(d + h) {
      assert x in Take(all, n) && x in all && x in Elems(all) && x in deps + hooks;
      if x in deps {
        assert x in Elems(ds);
        NewestSurvives(all, ds, n, x);
        assert x in Elems(d);
      } else {
        assert x in Elems(hs);
        NewestSurvives(all, hs, n, x);
        assert x in Elems(h);
      }
    }
  }

  /** The last item shown and the first one left out carry the same printed second. */
  predicate TieAtTheCut(m: seq<Item>, n: nat) {
    0 < n < |m| && Second(m[n - 1]) == Second(m[n])
  }

  lemma ClearCutShowsTheNewest(deps: seq<Item>, hooks: seq<Item>, n: nat, all: seq<Item>, d: seq<Item>, h: seq<Item>, m: seq<Item>)
    requires DistinctInstants(deps + hooks) && SortOf(deps + hooks, all, NewestFirst()) && n > 0
    requires IsNewest(deps, n, d) && IsNewest(hooks, n, h) && SortOf(d + h, m, LatestPrinted())
    requires !TieAtTheCut(m, n)
    ensures Elems(Take(m, n)) == Elems(Take(all, n))
  {
    var shown, top := Take(m, n), Take(all, n);
    FetchHoldsTheNewest(deps, hooks, n, all, d, h);
    UniqueIsOrderless(d + h, m);
    assert IsFeed(deps, hooks, n, shown);
    FeedShowsTheNewestTimes(deps, hooks, n, shown, all);
    SortedRowsAreDistinct(deps + hooks, all);
    hide IsFeed, IsNewest, SortOf;
    assert |shown| == |Printed(shown)| == |Printed(top)| == |top|;
    AboveTheCut(m, n, top);
    UniqueIsASet(shown);
    UniqueIsASet(top);
    SubsetIsNoLarger(Elems(top), Elems(shown));
  }

  lemma BehindTheCut(m: seq<Item>, n: nat, k: nat)
    requires Descending(m) && !TieAtTheCut(m, n) && 0 < n < |m| && k < |m|
    ensures Second(m[k]) >= Second(m[n - 1]) ==> k < n
  {
    assert n < k ==> LatestPrinted()(m[n], m[k]);
    assert LatestPrinted()(m[n - 1], m[n]);
  }

  lemma AboveTheCut(m: seq<Item>, n: nat, top: seq<Item>)
    requires Descending(m) && !TieAtTheCut(m, n) && n > 0
    requires Elems(top) <= Elems(m) && Printed(top) == Printed(Take(m, n))
    ensures Elems(top) <= Elems(Take(m, n))
  {
    var shown := Take(m, n);
    forall y | y in Elems(top) ensures y in Elems(shown) {
      var i :| 0 <= i < |top| && top[i] == y;
      assert Second(y) == Printed(top)[i] == Printed(shown)[i] == Second(m[i]);
      assert y in Elems(m);
      var k :| 0 <= k < |m| && m[k] == y;
      if |m| > n {
        assert i < n - 1 ==> LatestPrinted()(m[i], m[n - 1]);
        BehindTheCut(m, n, k);
      }
      assert shown[k] == y;
    }
  }

  /** Two items of one second may trade places. */
  lemma Swapped(xs: seq<Item>, m: seq<Item>, n: nat) returns (m2: seq<Item>)
    requires SortOf(xs, m, LatestPrinted()) && Unique(m) && TieAtTheCut(m, n)
    ensures SortOf(xs, m2, LatestPrinted()) && Elems(Take(m2, n)) != Elems(Take(m, n))
  {
    m2 := m[n - 1 := m[n]][n := m[n - 1]];
    var a, b := m[..n - 1], m[n + 1..];
    assert m == a + [m[n - 1]] + [m[n]] + b;
    assert m2 == a + [m[n]] + [m[n - 1]] + b;
    forall i, j | 0 <= i < j < |m2| ensures LatestPrinted()(m2[i], m2[j]) {
      assert Second(m[i]) >= Second(m[j]) by {
        assert LatestPrinted()(m[i], m[j]);
      }
      assert i < n - 1 ==> LatestPrinted()(m[i], m[n - 1]);
      assert n < j ==> LatestPrinted()(m[n], m[j]);
    }
    assert Take(m2, n)[n - 1] == m[n];
    assert m[n] in Elems(Take(m2, n));
    assert m[n] !in Take(m, n);
  }

  lemma SameTiesForAll(
    deps: seq<Item>, hooks: seq<Item>, n: nat, d: seq<Item>, h: seq<Item>, m: seq<Item>, d2: seq<Item>, h2: seq<Item>, m2: seq<Item>)
    requires IsNewest(deps, n, d) && IsNewest(hooks, n, h) && SortOf(d + h, m, LatestPrinted())
    requires IsNewest(deps, n, d2) && IsNewest(hooks, n, h2) && SortOf(d2 + h2, m2, LatestPrinted())
    ensures TieAtTheCut(m, n) <==> TieAtTheCut(m2, n)
  {
    forall s ensures Since(m, s) == Since(m2, s) {
      SinceIsOrderless(d + h, m, s);
      SinceIsOrderless(d2 + h2, m2, s);
      SinceConcat(d, h, s);
      SinceConcat(d2, h2, s);
      SinceOfNewest(deps, n, d, s);
      SinceOfNewest(hooks, n, h, s);
      SinceOfNewest(deps, n, d2, s);
      SinceOfNewest(hooks, n, h2, s);
    }
    CountsDeterminePrinted(m, m2);
    hide IsNewest, SortOf, Since;
    assert forall i :: 0 <= i < |m| ==> Second(m[i]) == Printed(m)[i];
    assert forall i :: 0 <= i < |m2| ==> Second(m2[i]) == Printed(m2)[i];
  }

  /** Every legal feed shows exactly the newest `n` items if and only if the merged list is not
      cut between two items of the same printed second. */
  lemma ItemsAreTheNewestIff(deps: seq<Item>, hooks: seq<Item>, n: nat, all: seq<Item>, d: seq<Item>, h: seq<Item>, m: seq<Item>)
    requires DistinctInstants(deps + hooks) && SortOf(deps + hooks, all, NewestFirst()) && n > 0
    requires IsNewest(deps, n, d) && IsNewest(hooks, n, h) && SortOf(d + h, m, LatestPrinted())
    ensures (forall out :: IsFeed(deps, hooks, n, out) ==> Elems(out) == Elems(Take(all, n))) <==> !TieAtTheCut(m, n)
  {
    if TieAtTheCut(m, n) {
      FetchHoldsTheNewest(deps, hooks, n, all, d, h);
      UniqueIsOrderless(d + h, m);
      var m2 := Swapped(d + h, m, n);
      assert IsFeed(deps, hooks, n, Take(m, n)) && IsFeed(deps, hooks, n, Take(m2, n));
    } else {
      forall out | IsFeed(deps, hooks, n, out) ensures Elems(out) == Elems(Take(all, n)) {
        var d2, h2, m2 :| IsNewest(deps, n, d2) && IsNewest(hooks, n, h2) && SortOf(d2 + h2, m2, LatestPrinted()) && out == Take(m2, n);
        SameTiesForAll(deps, hooks, n, d, h, m, d2, h2, m2);
        ClearCutShowsTheNewest(deps, hooks, n, all, d2, h2, m2);
      }
    }
  }

  lemma AloneIsNewest(it: Item)
    ensures IsNewest([it], 1, [it])
  {
    assert SortOf([it], [it], NewestFirst());
  }

  lemma FeedOf(deps: seq<Item>, hooks: seq<Item>, n: nat, d: seq<Item>, h: seq<Item>, all: seq<Item>)
    requires IsNewest(deps, n, d) && IsNewest(hooks, n, h) && SortOf(d + h, all, LatestPrinted())
    ensures IsFeed(deps, hooks, n, Take(all, n))
  {
  }

  lemma TwoAreSorted(x: Item, y: Item, le: (Item, Item) -> bool)
    requires le(x, y)
    ensures SortOf([x] + [y], [x, y], le) && SortOf([y] + [x], [x, y], le)
  {
    assert [x] + [y] == [x, y];
  }

  /** For instance, of two rows within one second the older may be the one that is shown. */
  lemma OlderItemMayBeShown(dep: Item, hook: Item)
    requires dep.instant == 1_900_000 && hook.instant == 1_200_000
    ensures IsFeed([dep], [hook], 1, [hook]) && SortOf([dep] + [hook], [dep, hook], NewestFirst())
  {
    assert NewestFirst()(dep, hook) && LatestPrinted()(hook, dep);
    TwoAreSorted(dep, hook, NewestFirst());
    TwoAreSorted(hook, dep, LatestPrinted());
    AloneIsNewest(dep);
    AloneIsNewest(hook);
    assert Take([hook, dep], 1) == [hook];
    hide *;
    FeedOf([dep], [hook], 1, [dep], [hook], [hook, dep]);
  }
}
