/** Small vocabulary shared by the other modules. */
module Common {

  /** A nullable column or an optional result. */
  datatype Option<+T> = None | Some(value: T) {
    function GetOr(default: T): T {
      match this
      case Some(v) => v
      case None => default
    }
  }

  /** What becomes of a remote write: done, lost with an error, or done although the caller
      sees an error (a connection that drops while the answer is on its way). */
  datatype Fault = Acked | Lost | Unacked

  const TENANT_HOST_ZONE := "spinup.in"
  const BUILD_TIMEOUT := 900

  /** The part of a commit hash that names images, Deployments and Services. */
  function Short(sha: string): (short: string)
    ensures short <= sha && |short| == if |sha| < 8 then |sha| else 8
  {
    if |sha| < 8 then sha else sha[..8]
  }

  /** A map read the way the source's maps are: a missing key counts as zero. */
  function At<K>(m: map<K, int>, k: K): int {
    if k in m then m[k] else 0
  }

  /** The last `n` elements. */
  function Last<T>(s: seq<T>, n: nat): seq<T> {
    if |s| <= n then s else s[|s| - n..]
  }

  lemma LastOfAppend<T>(s: seq<T>, x: T, n: nat)
    requires n > 0
    ensures Last(s + [x], n) == Last(Last(s, n) + [x], n)
  {
  }

  lemma LastOfLast<T>(s: seq<T>, n: nat, k: nat)
    requires k <= n
    ensures Last(Last(s, n), k) == Last(s, k)
  {
  }

  /** The next element of a traversal whose order is left open. */
  method Pick<T(==)>(s: set<T>) returns (x: T)
    requires s != {}
    ensures x in s
  {
    x :| x in s;
  }

  /** The sum of `f` over a sequence. */
  ghost function Sum<T(!new)>(xs: seq<T>, f: T -> int): int {
    if xs == [] then 0 else f(xs[0]) + Sum(xs[1..], f)
  }

  lemma {:induction false} SumConcat<T(!new)>(xs: seq<T>, ys: seq<T>, f: T -> int)
    ensures Sum(xs + ys, f) == Sum(xs, f) + Sum(ys, f)
  {
    if xs == [] {
      assert xs + ys == ys;
    } else {
      assert (xs + ys)[1..] == xs[1..] + ys;
      SumConcat(xs[1..], ys, f);
    }
  }

  /** The sum of `f` over a finite set. */
  ghost function SetSum<T(!new)>(s: set<T>, f: T -> int): int {
    if s == {} then 0
    else
      var x :| x in s;
      f(x) + SetSum(s - {x}, f)
  }

  /** Any element may be taken out first, so the order of a traversal does not matter. */
  lemma {:induction false} SetSumTake<T(!new)>(s: set<T>, x: T, f: T -> int)
    requires x in s
    ensures SetSum(s, f) == f(x) + SetSum(s - {x}, f)
    decreases s
  {
    var y :| y in s && SetSum(s, f) == f(y) + SetSum(s - {y}, f);
    if x != y {
      SetSumTake(s - {y}, x, f);
      SetSumTake(s - {x}, y, f);
      assert s - {x} - {y} == s - {y} - {x};
    }
  }

  lemma SetSumAdd<T(!new)>(s: set<T>, x: T, f: T -> int)
    requires x !in s
    ensures SetSum(s + {x}, f) == SetSum(s, f) + f(x)
  {
    SetSumTake(s + {x}, x, f);
    assert s + {x} - {x} == s;
  }

  /** A sum of sums is taken term by term. */
  lemma {:induction false} SetSumPlus<T(!new)>(s: set<T>, f: T -> int, g: T -> int, h: T -> int)
    requires forall x :: x in s ==> f(x) == g(x) + h(x)
    ensures SetSum(s, f) == SetSum(s, g) + SetSum(s, h)
    decreases s
  {
    if s != {} {
      var x :| x in s;
      SetSumTake(s, x, f);
      SetSumTake(s, x, g);
      SetSumTake(s, x, h);
      SetSumPlus(s - {x}, f, g, h);
    }
  }

  lemma {:induction false} SetSumSame<T(!new)>(s: set<T>, f: T -> int, g: T -> int)
    requires forall x :: x in s ==> f(x) == g(x)
    ensures SetSum(s, f) == SetSum(s, g)
    decreases s
  {
    if s != {} {
      var x :| x in s;
      SetSumTake(s, x, f);
      SetSumTake(s, x, g);
      SetSumSame(s - {x}, f, g);
    }
  }

  lemma {:induction false} SetSumSplit<T(!new)>(s: set<T>, t: set<T>, f: T -> int)
    ensures SetSum(s, f) == SetSum(s * t, f) + SetSum(s - t, f)
    decreases s
  {
    if s != {} {
      var x :| x in s;
      var rest := s - {x};
      SetSumSplit(rest, t, f);
      SetSumTake(s, x, f);
      if x in t {
        SetSumTake(s * t, x, f);
        assert s * t - {x} == rest * t && s - t == rest - t;
      } else {
        SetSumTake(s - t, x, f);
        assert s - t - {x} == rest - t && s * t == rest * t;
      }
    }
  }

  lemma SetSumZero<T(!new)>(s: set<T>, f: T -> int)
    requires forall x :: x in s ==> f(x) == 0
    ensures SetSum(s, f) == 0
  {
    SetSumPlus(s, f, f, f);
  }

  lemma {:induction false} SumPlus<T(!new)>(xs: seq<T>, f: T -> int, g: T -> int, h: T -> int)
    requires forall x :: x in xs ==> f(x) == g(x) + h(x)
    ensures Sum(xs, f) == Sum(xs, g) + Sum(xs, h)
  {
    if xs != [] {
      SumPlus(xs[1..], f, g, h);
    }
  }

  lemma {:induction false} SumSame<T(!new)>(xs: seq<T>, f: T -> int, g: T -> int)
    requires forall x :: x in xs ==> f(x) == g(x)
    ensures Sum(xs, f) == Sum(xs, g)
  {
    if xs != [] {
      SumSame(xs[1..], f, g);
    }
  }

  lemma SumZero<T(!new)>(xs: seq<T>, f: T -> int)
    requires forall x :: x in xs ==> f(x) == 0
    ensures Sum(xs, f) == 0
  {
    SumPlus(xs, f, f, f);
  }

  lemma SumSingle<T(!new)>(x: T, f: T -> int)
    ensures Sum([x], f) == f(x)
  {
    assert [x][1..] == [];
  }
}
