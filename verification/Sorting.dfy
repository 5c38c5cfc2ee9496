/** Library sorting: the callers know that they get a sorted permutation, and no more; in
    particular nothing about the order of equal elements. */
module Sorting {
  ghost predicate TotalPreorder<T(!new)>(le: (T, T) -> bool) {
    && (forall a, b :: le(a, b) || le(b, a))
    && (forall a, b, c :: le(a, b) && le(b, c) ==> le(a, c))
  }

  ghost predicate Sorted<T>(xs: seq<T>, le: (T, T) -> bool) {
    forall i, j :: 0 <= i < j < |xs| ==> le(xs[i], xs[j])
  }

  ghost predicate SortOf<T>(xs: seq<T>, ys: seq<T>, le: (T, T) -> bool) {
    multiset(ys) == multiset(xs) && Sorted(ys, le)
  }

  lemma InsertAt<T>(ys: seq<T>, i: nat, x: T, le: (T, T) -> bool)
    requires i <= |ys| && Sorted(ys, le)
    requires (forall k :: 0 <= k < i ==> le(ys[k], x)) && (forall k :: i <= k < |ys| ==> le(x, ys[k]))
    ensures var zs := ys[..i] + [x] + ys[i..]; Sorted(zs, le) && multiset(zs) == multiset(ys) + multiset{x}
  {
    assert ys == ys[..i] + ys[i..];
  }

  method Sort<T(!new)>(xs: seq<T>, le: (T, T) -> bool) returns (ys: seq<T>)
    requires TotalPreorder(le)
    ensures SortOf(xs, ys, le)
  {
    ys := [];
    for n := 0 to |xs|
      invariant SortOf(xs[..n], ys, le)
    {
      var i := 0;
      while i < |ys| && le(ys[i], xs[n])
        invariant 0 <= i <= |ys|
        invariant forall k :: 0 <= k < i ==> le(ys[k], xs[n])
      {
        i := i + 1;
      }
      assert forall k :: i <= k < |ys| ==> le(xs[n], ys[k]);
      InsertAt(ys, i, xs[n], le);
      assert xs[..n + 1] == xs[..n] + [xs[n]];
      ys := ys[..i] + [xs[n]] + ys[i..];
    }
    assert xs[..|xs|] == xs;
  }

  lemma SameElements<T>(xs: seq<T>, ys: seq<T>)
    requires multiset(xs) == multiset(ys)
    ensures |xs| == |ys| && forall x :: x in xs <==> x in ys
  {
    assert |multiset(xs)| == |multiset(ys)|;
    forall x ensures x in xs <==> x in ys {
      assert x in multiset(xs) <==> x in multiset(ys);
    }
  }
}
