/**
 `histogramQuantileMs`: quantiles of a cumulative latency histogram by linear interpolation.
 Counts and bounds are reals. The label text of a bucket is turned into its bound by `parse`.
 */
module Histogram {
  import opened Sorting

  datatype Bound = Finite(seconds: real) | Infinite

  datatype Bucket = Bucket(le: Bound, v: real)

  /** The float-to-integer conversion of +Inf has no defined result. */
  datatype Millis = Ms(n: int) | ConvertedInfinity

  predicate BoundLe(a: Bound, b: Bound) {
    b.Infinite? || (a.Finite? && a.seconds <= b.seconds)
  }

  predicate ByBound(a: Bucket, b: Bucket) {
    BoundLe(a.le, b.le)
  }

  /** Conversion to int64 truncates toward zero. */
  function Truncate(x: real): int {
    if x >= 0.0 then x.Floor else -((-x).Floor)
  }

  function ToMs(b: Bound): Millis {
    if b.Infinite? then ConvertedInfinity else Ms(Truncate(b.seconds * 1000.0))
  }

  // ----- the specification -----

  /** The first bucket whose cumulative count reaches the target. */
  function Reaching(arr: seq<Bucket>, target: real): (j: nat)
    ensures j <= |arr| && (j < |arr| ==> arr[j].v >= target)
    ensures forall k :: 0 <= k < j ==> arr[k].v < target
  {
    if arr == [] || arr[0].v >= target then 0 else 1 + Reaching(arr[1..], target)
  }

  /** The bucket before the first one is the empty bucket at zero seconds. */
  function Before(arr: seq<Bucket>, j: nat): Bucket
    requires j <= |arr|
  {
    if j == 0 then Bucket(Finite(0.0), 0.0) else arr[j - 1]
  }

  function Interpolate(lo: real, loV: real, hi: real, hiV: real, target: real): real {
    if hiV == loV then hi else lo + (target - loV) / (hiV - loV) * (hi - lo)
  }

  /** The time by which `target` requests were done. */
  function TimeAt(arr: seq<Bucket>, target: real): Millis
    requires arr != []
  {
    var j := Reaching(arr, target);
    if j == |arr| then ToMs(arr[j - 1].le) else
    var p := Before(arr, j);
    // after sorting, the previous bound is infinite only if this one is
    if arr[j].le.Infinite? || p.le.Infinite? then ToMs(p.le)
    else Ms(Truncate(Interpolate(p.le.seconds, p.v, arr[j].le.seconds, arr[j].v, target) * 1000.0))
  }

  function Target(total: real, q: real): real {
    q * total
  }

  function QuantileOf(arr: seq<Bucket>, total: real, q: real): Millis {
    if total <= 0.0 || arr == [] then Ms(0) else TimeAt(arr, Target(total, q))
  }

  /** Sorted by bound, every bound once, no negative bound. */
  ghost predicate Proper(arr: seq<Bucket>) {
    && (forall i, j :: 0 <= i < j < |arr| ==> ByBound(arr[i], arr[j]) && arr[i].le != arr[j].le)
    && (forall i :: 0 <= i < |arr| && arr[i].le.Finite? ==> arr[i].le.seconds >= 0.0)
  }

  // ----- arithmetic -----

  lemma TruncateMonotone(x: real, y: real)
    requires x <= y
    ensures Truncate(x) <= Truncate(y)
  {
  }

  lemma TargetIsMonotone(total: real, q: real, q': real)
    requires total >= 0.0 && 0.0 <= q <= q'
    ensures 0.0 <= Target(total, q) <= Target(total, q')
    ensures Target(total, 1.0) == total
  {
  }

  lemma ProductIsMonotone(a: real, b: real, w: real)
    requires 0.0 <= a <= b && 0.0 <= w
    ensures 0.0 <= a * w <= b * w
  {
    assert 0.0 <= (b - a) * w;
  }

  lemma QuotientIsMonotone(x: real, y: real, d: real)
    requires 0.0 <= x <= y && 0.0 < d
    ensures 0.0 <= x / d <= y / d
  {
    var u := 1.0 / d;
    assert x / d == x * u && y / d == y * u;
    ProductIsMonotone(x, y, u);
  }

  lemma FractionOf(x: real, y: real, d: real)
    requires 0.0 <= x <= y <= d && 0.0 < d
    ensures 0.0 <= x / d <= y / d <= 1.0
  {
    QuotientIsMonotone(x, y, d);
    QuotientIsMonotone(y, d, d);
    assert d / d == 1.0;
  }

  lemma InterpolationIsMonotone(lo: real, loV: real, hi: real, hiV: real, s: real, t: real)
    requires lo <= hi && loV <= s <= t <= hiV
    ensures lo <= Interpolate(lo, loV, hi, hiV, s) <= Interpolate(lo, loV, hi, hiV, t) <= hi
  {
    if loV < hiV {
      var d, w := hiV - loV, hi - lo;
      var a, b := (s - loV) / d, (t - loV) / d;
      FractionOf(s - loV, t - loV, d);
      ProductIsMonotone(a, b, w);
      ProductIsMonotone(b, 1.0, w);
    }
  }

  // ----- properties of the quantile -----

  lemma BucketsAreOrdered(arr: seq<Bucket>, j: nat, target: real)
    requires Proper(arr) && target >= 0.0 && j == Reaching(arr, target) < |arr|
    ensures var p := Before(arr, j);
            p.le.Finite? && p.v <= target <= arr[j].v && (arr[j].le.Finite? ==> p.le.seconds <= arr[j].le.seconds)
  {
    assert j > 0 ==> ByBound(arr[j - 1], arr[j]);
  }

  /** The quantile lies between the bounds of the first bucket that reaches the target; in the
      infinite bucket it is that bucket's lower bound. */
  lemma QuantileBracket(arr: seq<Bucket>, target: real)
    requires Proper(arr) && target >= 0.0 && Reaching(arr, target) < |arr|
    ensures var j := Reaching(arr, target);
            var lo := Before(arr, j).le;
            && lo.Finite? && TimeAt(arr, target).Ms?
            && Truncate(lo.seconds * 1000.0) <= TimeAt(arr, target).n
            && (arr[j].le.Infinite? ==> TimeAt(arr, target).n == Truncate(lo.seconds * 1000.0))
            && (arr[j].le.Finite? ==> TimeAt(arr, target).n <= Truncate(arr[j].le.seconds * 1000.0))
  {
    var j := Reaching(arr, target);
    var p := Before(arr, j);
    BucketsAreOrdered(arr, j, target);
    hide Reaching, Before, Proper, Truncate, Interpolate;
    if arr[j].le.Finite? {
      var lo, loV, hi, hiV := p.le.seconds, p.v, arr[j].le.seconds, arr[j].v;
      InterpolationIsMonotone(lo, loV, hi, hiV, target, target);
      TruncateMonotone(lo * 1000.0, Interpolate(lo, loV, hi, hiV, target) * 1000.0);
      TruncateMonotone(Interpolate(lo, loV, hi, hiV, target) * 1000.0, hi * 1000.0);
    }
  }

  lemma ReachingIsMonotone(arr: seq<Bucket>, s: real, t: real)
    requires s <= t
    ensures Reaching(arr, s) <= Reaching(arr, t)
  {
    var j := Reaching(arr, t);
    assert j < |arr| ==> arr[j].v >= s;
  }

  /** Bounds up to position j, in milliseconds, do not exceed what position j can return. */
  lemma BoundBelow(arr: seq<Bucket>, i: nat, j: nat)
    requires Proper(arr) && i < j <= |arr| && arr[j - 1].le.Finite?
    ensures arr[i].le.Finite? && Truncate(arr[i].le.seconds * 1000.0) <= Truncate(arr[j - 1].le.seconds * 1000.0)
  {
    assert i < j - 1 ==> ByBound(arr[i], arr[j - 1]);
    TruncateMonotone(arr[i].le.seconds * 1000.0, arr[j - 1].le.seconds * 1000.0);
  }

  lemma SameBucketIsMonotone(arr: seq<Bucket>, s: real, t: real)
    requires Proper(arr) && 0.0 <= s <= t
    requires Reaching(arr, s) == Reaching(arr, t) < |arr| && arr[Reaching(arr, s)].le.Finite?
    ensures TimeAt(arr, s).Ms? && TimeAt(arr, t).Ms? && TimeAt(arr, s).n <= TimeAt(arr, t).n
  {
    var i := Reaching(arr, s);
    BucketsAreOrdered(arr, i, s);
    BucketsAreOrdered(arr, i, t);
    var p := Before(arr, i);
    hide Reaching, Before, Proper, Truncate, Interpolate;
    var lo, loV, hi, hiV := p.le.seconds, p.v, arr[i].le.seconds, arr[i].v;
    InterpolationIsMonotone(lo, loV, hi, hiV, s, t);
    TruncateMonotone(Interpolate(lo, loV, hi, hiV, s) * 1000.0, Interpolate(lo, loV, hi, hiV, t) * 1000.0);
  }

  /** A defined quantile is no smaller than the bounds of the buckets before it. */
  lemma TimeIsAbove(arr: seq<Bucket>, i: nat, t: real)
    requires Proper(arr) && 0.0 <= t && i < Reaching(arr, t) && TimeAt(arr, t).Ms?
    ensures arr[i].le.Finite? && Truncate(arr[i].le.seconds * 1000.0) <= TimeAt(arr, t).n
  {
    var j := Reaching(arr, t);
    if j < |arr| {
      QuantileBracket(arr, t);
    }
    BoundBelow(arr, i, j);
    hide Reaching, Proper, Truncate, Interpolate;
  }

  lemma EarlierBucketIsSmaller(arr: seq<Bucket>, s: real, t: real)
    requires Proper(arr) && 0.0 <= s <= t
    requires Reaching(arr, s) < Reaching(arr, t) && TimeAt(arr, t).Ms?
    ensures TimeAt(arr, s).Ms? && TimeAt(arr, s).n <= TimeAt(arr, t).n
  {
    hide *;
    QuantileBracket(arr, s);
    TimeIsAbove(arr, Reaching(arr, s), t);
  }

  lemma TimeIsMonotone(arr: seq<Bucket>, s: real, t: real)
    requires Proper(arr) && arr != [] && 0.0 <= s <= t && TimeAt(arr, s).Ms? && TimeAt(arr, t).Ms?
    ensures TimeAt(arr, s).n <= TimeAt(arr, t).n
  {
    ReachingIsMonotone(arr, s, t);
    var i, j := Reaching(arr, s), Reaching(arr, t);
    if i < j {
      hide *;
      EarlierBucketIsSmaller(arr, s, t);
    } else if i < |arr| {
      QuantileBracket(arr, s);
      QuantileBracket(arr, t);
      hide *;
      if arr[i].le.Finite? {
        SameBucketIsMonotone(arr, s, t);
      }
    }
  }

  /** Larger quantiles are never smaller, cumulative counts or not. */
  lemma QuantileIsMonotone(arr: seq<Bucket>, total: real, q: real, q': real)
    requires Proper(arr) && 0.0 <= q <= q'
    requires QuantileOf(arr, total, q).Ms? && QuantileOf(arr, total, q').Ms?
    ensures QuantileOf(arr, total, q).n <= QuantileOf(arr, total, q').n
  {
    if total > 0.0 && arr != [] {
      hide TimeAt, Proper, Target;
      TargetIsMonotone(total, q, q');
      TimeIsMonotone(arr, Target(total, q), Target(total, q'));
    }
  }

  /** The documented fall-back is the highest finite bound. When the counts never reach the
      target and an infinite bucket is present, the code converts infinity instead; these are
      exactly the inputs without a defined result. */
  lemma UndefinedIff(arr: seq<Bucket>, total: real, q: real)
    requires Proper(arr) && q >= 0.0
    ensures QuantileOf(arr, total, q).ConvertedInfinity? <==>
            && total > 0.0 && arr != [] && arr[|arr| - 1].le.Infinite?
            && forall k :: 0 <= k < |arr| ==> arr[k].v < Target(total, q)
  {
    if total > 0.0 && arr != [] {
      hide TimeAt, Proper, Target;
      TargetIsMonotone(total, q, q);
      UndefinedTimeIff(arr, Target(total, q));
    }
  }

  /** For instance, one request below 100 ms and none above, asked for the median of four. */
  lemma MedianOfFourConvertsInfinity()
    ensures var arr := [Bucket(Finite(0.1), 1.0), Bucket(Infinite, 1.0)];
            Proper(arr) && QuantileOf(arr, 4.0, 0.5) == ConvertedInfinity
  {
    var arr := [Bucket(Finite(0.1), 1.0), Bucket(Infinite, 1.0)];
    assert Target(4.0, 0.5) == 2.0;
    UndefinedIff(arr, 4.0, 0.5);
  }

  lemma UndefinedTimeIff(arr: seq<Bucket>, target: real)
    requires Proper(arr) && arr != [] && target >= 0.0
    ensures TimeAt(arr, target).ConvertedInfinity? <==>
            arr[|arr| - 1].le.Infinite? && forall k :: 0 <= k < |arr| ==> arr[k].v < target
  {
    if Reaching(arr, target) < |arr| {
      QuantileBracket(arr, target);
    }
  }

  // ----- what the quantile is, in arithmetic -----

  /** The whole milliseconds of a time. */
  predicate IsMillis(m: Millis, seconds: real) {
    m.Ms? && m.n as real <= seconds * 1000.0 < m.n as real + 1.0
  }

  lemma TruncatesToMillis(seconds: real)
    requires seconds >= 0.0
    ensures IsMillis(Ms(Truncate(seconds * 1000.0)), seconds)
  {
  }

  /** Bucket `j` is the first one that reaches the target. */
  ghost predicate IsFirst(arr: seq<Bucket>, target: real, j: nat) {
    j < |arr| && arr[j].v >= target && forall k :: 0 <= k < j ==> arr[k].v < target
  }

  lemma FirstIsReaching(arr: seq<Bucket>, target: real, j: nat)
    requires IsFirst(arr, target, j)
    ensures Reaching(arr, target) == j
  {
  }

  /** The straight line through (loV, lo) and (hiV, hi) is at `x` when the count is the target; a
      bucket without requests of its own is left at once. */
  predicate OnLine(lo: real, loV: real, hi: real, hiV: real, target: real, x: real) {
    if loV == hiV then x == hi else (x - lo) * (hiV - loV) == (target - loV) * (hi - lo)
  }

  lemma InterpolationIsLinear(lo: real, loV: real, hi: real, hiV: real, target: real, x: real)
    requires loV < hiV && (x - lo) * (hiV - loV) == (target - loV) * (hi - lo)
    ensures Interpolate(lo, loV, hi, hiV, target) == x
  {
    var d := hiV - loV;
    var a := (target - loV) / d;
    assert a * d == target - loV;
    assert (x - lo) * d == a * (hi - lo) * d;
    SameFactor(x - lo, a * (hi - lo), d);
  }

  lemma SameFactor(x: real, y: real, d: real)
    requires x * d == y * d && d != 0.0
    ensures x == y
  {
    assert (x - y) * d == 0.0;
  }

  lemma TimeInterpolates(arr: seq<Bucket>, target: real, j: nat, lo: real, loV: real, x: real)
    requires Proper(arr) && target >= 0.0 && IsFirst(arr, target, j) && arr[j].le.Finite?
    requires if j == 0 then lo == 0.0 && loV == 0.0 else arr[j - 1] == Bucket(Finite(lo), loV)
    requires OnLine(lo, loV, arr[j].le.seconds, arr[j].v, target, x)
    ensures IsMillis(TimeAt(arr, target), x)
  {
    FirstIsReaching(arr, target, j);
    var hi, hiV := arr[j].le.seconds, arr[j].v;
    TimeInBucket(arr, target, j, lo, loV);
    hide *;
    InterpolatesTo(lo, loV, hi, hiV, target, x);
    InterpolationIsMonotone(lo, loV, hi, hiV, target, target);
    TruncatesToMillis(x);
  }

  lemma TimeInBucket(arr: seq<Bucket>, target: real, j: nat, lo: real, loV: real)
    requires Proper(arr) && target >= 0.0 && Reaching(arr, target) == j < |arr| && arr[j].le.Finite?
    requires if j == 0 then lo == 0.0 && loV == 0.0 else arr[j - 1] == Bucket(Finite(lo), loV)
    ensures TimeAt(arr, target) == Ms(Truncate(Interpolate(lo, loV, arr[j].le.seconds, arr[j].v, target) * 1000.0))
    ensures 0.0 <= lo <= arr[j].le.seconds && loV <= target <= arr[j].v
  {
    BucketsAreOrdered(arr, j, target);
    hide Interpolate, Truncate;
  }

  lemma QuantileIsTime(arr: seq<Bucket>, total: real, q: real)
    requires total > 0.0 && q >= 0.0 && arr != []
    ensures q * total >= 0.0 && QuantileOf(arr, total, q) == TimeAt(arr, q * total)
  {
    TargetIsMonotone(total, 0.0, q);
    hide TimeAt;
  }

  /** Within a finite bucket the requests are spread evenly: the quantile is the time x at which
      the straight line from the bucket's lower bound and count to its upper ones is at q * total. */
  lemma QuantileInterpolates(arr: seq<Bucket>, total: real, q: real, j: nat, lo: real, loV: real, x: real)
    requires Proper(arr) && total > 0.0 && q >= 0.0 && IsFirst(arr, q * total, j) && arr[j].le.Finite?
    requires if j == 0 then lo == 0.0 && loV == 0.0 else arr[j - 1] == Bucket(Finite(lo), loV)
    requires OnLine(lo, loV, arr[j].le.seconds, arr[j].v, q * total, x)
    ensures IsMillis(QuantileOf(arr, total, q), x)
  {
    QuantileIsTime(arr, total, q);
    var target := q * total;
    hide *;
    TimeInterpolates(arr, target, j, lo, loV, x);
  }

  lemma InterpolatesTo(lo: real, loV: real, hi: real, hiV: real, target: real, x: real)
    requires loV <= target <= hiV
    requires OnLine(lo, loV, hi, hiV, target, x)
    ensures Interpolate(lo, loV, hi, hiV, target) == x
  {
    if loV < hiV {
      InterpolationIsLinear(lo, loV, hi, hiV, target, x);
    }
  }

  /** Above the highest finite bound nothing is known: the quantile is that bound, whether the
      target falls into the infinite bucket or, without one, is never reached. */
  lemma QuantileAboveIsHighestBound(arr: seq<Bucket>, total: real, q: real, j: nat, lo: real, loV: real)
    requires Proper(arr) && total > 0.0 && q >= 0.0 && arr != []
    requires if IsFirst(arr, q * total, j) then arr[j].le.Infinite?
             else j == |arr| && forall k :: 0 <= k < |arr| ==> arr[k].v < q * total
    requires if j == 0 then lo == 0.0 && loV == 0.0 else arr[j - 1] == Bucket(Finite(lo), loV)
    ensures IsMillis(QuantileOf(arr, total, q), lo)
  {
    QuantileIsTime(arr, total, q);
    var target := q * total;
    hide QuantileOf, Target, Truncate, IsMillis;
    if j < |arr| {
      FirstIsReaching(arr, target, j);
    }
    assert TimeAt(arr, target) == Ms(Truncate(lo * 1000.0));
    TruncatesToMillis(lo);
  }

  /** Without requests the quantile is zero. */
  lemma NothingServedIsZero(arr: seq<Bucket>, total: real, q: real)
    requires total <= 0.0 || arr == []
    ensures QuantileOf(arr, total, q) == Ms(0)
  {
  }

  /** For instance, ten requests below 100 ms have a median of 50 ms. */
  lemma MedianIsInTheMiddle()
    ensures var arr := [Bucket(Finite(0.1), 10.0), Bucket(Infinite, 10.0)];
            Proper(arr) && QuantileOf(arr, 10.0, 0.5) == Ms(50)
  {
    var arr := [Bucket(Finite(0.1), 10.0), Bucket(Infinite, 10.0)];
    assert IsFirst(arr, 0.5 * 10.0, 0);
    QuantileInterpolates(arr, 10.0, 0.5, 0, 0.0, 0.0, 0.05);
  }

  /** `total` is the count of the infinite bucket, as the function's comment demands. */
  ghost predicate Documented(arr: seq<Bucket>, total: real) {
    exists k :: 0 <= k < |arr| && arr[k] == Bucket(Infinite, total)
  }

  lemma DocumentedIsDefined(arr: seq<Bucket>, total: real, q: real)
    requires Proper(arr) && Documented(arr, total) && 0.0 <= q <= 1.0
    ensures QuantileOf(arr, total, q).Ms? && QuantileOf(arr, total, q).n >= 0
  {
    var k :| 0 <= k < |arr| && arr[k] == Bucket(Infinite, total);
    if total > 0.0 {
      hide TimeAt, Proper, Target;
      TargetIsMonotone(total, q, 1.0);
      DefinedTimeIsNonNegative(arr, k, Target(total, q));
    }
  }

  lemma DefinedTimeIsNonNegative(arr: seq<Bucket>, k: nat, target: real)
    requires Proper(arr) && k < |arr| && arr[k].v >= target >= 0.0
    ensures TimeAt(arr, target).Ms? && TimeAt(arr, target).n >= 0
  {
    QuantileBracket(arr, target);
    var j := Reaching(arr, target);
    assert Before(arr, j).le.seconds >= 0.0;
    TruncateMonotone(0.0, Before(arr, j).le.seconds * 1000.0);
    hide Interpolate;
  }

  /** Under the documented precondition every quantile is defined and p50 <= p95 <= p99. */
  lemma PercentilesAreOrdered(arr: seq<Bucket>, total: real)
    requires Proper(arr) && Documented(arr, total)
    ensures var p50, p95, p99 := QuantileOf(arr, total, 0.5), QuantileOf(arr, total, 0.95), QuantileOf(arr, total, 0.99);
            p50.Ms? && p95.Ms? && p99.Ms? && 0 <= p50.n <= p95.n <= p99.n
  {
    DocumentedIsDefined(arr, total, 0.5);
    DocumentedIsDefined(arr, total, 0.95);
    DocumentedIsDefined(arr, total, 0.99);
    hide *;
    QuantileIsMonotone(arr, total, 0.5, 0.95);
    QuantileIsMonotone(arr, total, 0.95, 0.99);
  }

  // ----- from the bucket map to the sorted buckets -----

  ghost predicate Visits<V>(m: map<string, V>, keys: seq<string>) {
    && (forall i, j :: 0 <= i < j < |keys| ==> keys[i] != keys[j])
    && forall k :: k in m <==> k in keys
  }

  function Entries(m: map<string, real>, parse: string -> Bound, keys: seq<string>): (arr: seq<Bucket>)
    requires forall k :: k in keys ==> k in m
  {
    seq(|keys|, i requires 0 <= i < |keys| => Bucket(parse(keys[i]), m[keys[i]]))
  }

  /** A sorted array of the map's buckets; the map may be visited in any order and equal
      bounds may end up in any order. */
  ghost predicate IsListing(m: map<string, real>, parse: string -> Bound, arr: seq<Bucket>) {
    exists keys :: Visits(m, keys) && SortOf(Entries(m, parse, keys), arr, ByBound)
  }

  /** Different labels denote different bounds. */
  ghost predicate Distinct(m: map<string, real>, parse: string -> Bound) {
    forall a, b :: a in m && b in m && a != b ==> parse(a) != parse(b)
  }

  ghost predicate Ascending(arr: seq<Bucket>) {
    forall i, j :: 0 <= i < j < |arr| ==> ByBound(arr[i], arr[j]) && arr[i].le != arr[j].le
  }

  lemma HeadIsLeast(arr: seq<Bucket>, b: Bucket)
    requires Ascending(arr) && b in arr
    ensures BoundLe(arr[0].le, b.le) && (b.le == arr[0].le ==> b == arr[0])
  {
  }

  lemma {:induction false} AscendingIsUnique(xs: seq<Bucket>, ys: seq<Bucket>)
    requires Ascending(xs) && Ascending(ys) && forall b :: b in xs <==> b in ys
    ensures xs == ys
  {
    assert ys == [] || ys[0] in ys;
    if xs != [] {
      assert xs[0] in xs;
      HeadIsLeast(xs, ys[0]);
      HeadIsLeast(ys, xs[0]);
      forall b ensures b in xs[1..] <==> b in ys[1..] {
        assert b in xs[1..] <==> b in xs && b != xs[0];
        assert b in ys[1..] <==> b in ys && b != ys[0];
      }
      AscendingIsUnique(xs[1..], ys[1..]);
      assert xs == [xs[0]] + xs[1..] && ys == [ys[0]] + ys[1..];
    }
  }

  lemma EntriesOf(m: map<string, real>, parse: string -> Bound, keys: seq<string>, b: Bucket)
    requires Visits(m, keys)
    ensures b in Entries(m, parse, keys) <==> exists k :: k in m && b == Bucket(parse(k), m[k])
  {
    var arr := Entries(m, parse, keys);
    if b in arr {
      var i :| 0 <= i < |arr| && arr[i] == b;
      assert keys[i] in m;
    }
    if k :| k in m && b == Bucket(parse(k), m[k]) {
      var i :| 0 <= i < |keys| && keys[i] == k;
      assert arr[i] == b;
    }
  }

  ghost predicate NoRepeats(arr: seq<Bucket>) {
    forall i, j :: 0 <= i < j < |arr| ==> arr[i] != arr[j]
  }

  lemma {:induction false} AtMostOnce(arr: seq<Bucket>, b: Bucket)
    requires NoRepeats(arr)
    ensures multiset(arr)[b] <= 1
  {
    if arr != [] {
      assert arr == [arr[0]] + arr[1..];
      AtMostOnce(arr[1..], b);
      assert arr[0] !in arr[1..];
    }
  }

  lemma Twice(arr: seq<Bucket>, i: nat, j: nat)
    requires i < j < |arr| && multiset(arr)[arr[i]] <= 1
    ensures arr[i] != arr[j]
  {
    assert arr == arr[..i] + [arr[i]] + arr[i + 1..j] + [arr[j]] + arr[j + 1..];
  }

  /** No bound occurs twice in a sorted listing of distinct bounds. */
  lemma ListingAscends(m: map<string, real>, parse: string -> Bound, keys: seq<string>, arr: seq<Bucket>)
    requires Visits(m, keys) && SortOf(Entries(m, parse, keys), arr, ByBound) && Distinct(m, parse)
    ensures Ascending(arr)
  {
    var es := Entries(m, parse, keys);
    assert forall c, d :: 0 <= c < d < |es| ==> keys[c] in m && keys[d] in m && es[c].le != es[d].le;
    SameElements(arr, es);
    forall i, j | 0 <= i < j < |arr| ensures ByBound(arr[i], arr[j]) && arr[i].le != arr[j].le {
      AtMostOnce(es, arr[i]);
      Twice(arr, i, j);
      assert arr[i] in es && arr[j] in es;
      var a: nat :| a < |es| && es[a] == arr[i];
      var b: nat :| b < |es| && es[b] == arr[j];
    }
  }

  /** When different labels denote different bounds, the order in which the map is visited
      and the sort's treatment of equals make no difference. */
  lemma ListingIsUnique(m: map<string, real>, parse: string -> Bound, xs: seq<Bucket>, ys: seq<Bucket>)
    requires IsListing(m, parse, xs) && IsListing(m, parse, ys) && Distinct(m, parse)
    ensures xs == ys && Ascending(xs)
  {
    var k1 :| Visits(m, k1) && SortOf(Entries(m, parse, k1), xs, ByBound);
    var k2 :| Visits(m, k2) && SortOf(Entries(m, parse, k2), ys, ByBound);
    ListingAscends(m, parse, k1, xs);
    ListingAscends(m, parse, k2, ys);
    SameElements(xs, Entries(m, parse, k1));
    SameElements(ys, Entries(m, parse, k2));
    forall b ensures b in xs <==> b in ys {
      EntriesOf(m, parse, k1, b);
      EntriesOf(m, parse, k2, b);
    }
    AscendingIsUnique(xs, ys);
  }

  ghost predicate BoundsNonNegative(m: map<string, real>, parse: string -> Bound) {
    forall k :: k in m && parse(k).Finite? ==> parse(k).seconds >= 0.0
  }

  lemma ListingHolds(m: map<string, real>, parse: string -> Bound, arr: seq<Bucket>, b: Bucket)
    requires IsListing(m, parse, arr)
    ensures b in arr <==> exists k :: k in m && b == Bucket(parse(k), m[k])
  {
    var keys :| Visits(m, keys) && SortOf(Entries(m, parse, keys), arr, ByBound);
    SameElements(arr, Entries(m, parse, keys));
    EntriesOf(m, parse, keys, b);
  }

  lemma ListingIsProper(m: map<string, real>, parse: string -> Bound, arr: seq<Bucket>)
    requires IsListing(m, parse, arr) && Distinct(m, parse) && BoundsNonNegative(m, parse)
    ensures Proper(arr)
  {
    ListingIsUnique(m, parse, arr, arr);
    forall i | 0 <= i < |arr| && arr[i].le.Finite? ensures arr[i].le.seconds >= 0.0 {
      ListingHolds(m, parse, arr, arr[i]);
    }
  }

  method ListBuckets(buckets: map<string, real>, parse: string -> Bound) returns (arr: seq<Bucket>)
    ensures IsListing(buckets, parse, arr) && |arr| == |buckets|
  {
    var todo := buckets.Keys;
    var entries := [];
    ghost var keys := [];
    while todo != {}
      invariant todo <= buckets.Keys && (forall k :: k in buckets <==> k in todo || k in keys)
      invariant forall k :: k in keys ==> k !in todo
      invariant forall i, j :: 0 <= i < j < |keys| ==> keys[i] != keys[j]
      invariant entries == Entries(buckets, parse, keys) && |keys| + |todo| == |buckets.Keys|
      decreases todo
    {
      var k :| k in todo;
      todo := todo - {k};
      entries := entries + [Bucket(parse(k), buckets[k])];
      keys := keys + [k];
    }
    arr := Sort(entries, ByBound);
    assert Visits(buckets, keys);
    SameElements(arr, entries);
  }

  /** The scan over the sorted buckets, with the previous bound and count in two variables. */
  method Scan(arr: seq<Bucket>, target: real) returns (ms: Millis)
    requires arr != []
    ensures ms == TimeAt(arr, target)
  {
    var prevLe, prevV := Finite(0.0), 0.0;
    for n := 0 to |arr|
      invariant Reaching(arr, target) >= n
      invariant Bucket(prevLe, prevV) == Before(arr, n)
    {
      var b := arr[n];
      if b.v >= target {
        assert Reaching(arr, target) == n;
        if b.le.Infinite? || prevLe.Infinite? {
          return ToMs(prevLe);
        }
        if b.v == prevV {
          return Ms(Truncate(b.le.seconds * 1000.0));
        }
        var frac := (target - prevV) / (b.v - prevV);
        var le := prevLe.seconds + frac * (b.le.seconds - prevLe.seconds);
        assert le == Interpolate(prevLe.seconds, prevV, b.le.seconds, b.v, target);
        hide Interpolate, Truncate;
        return Ms(Truncate(le * 1000.0));
      }
      prevLe, prevV := b.le, b.v;
    }
    ms := if arr[|arr| - 1].le.Infinite? then ToMs(prevLe) else ToMs(arr[|arr| - 1].le);
  }

  method HistogramQuantileMs(buckets: map<string, real>, parse: string -> Bound, total: real, q: real) returns (ms: Millis)
    ensures exists arr :: IsListing(buckets, parse, arr) && ms == QuantileOf(arr, total, q)
  {
    var arr := ListBuckets(buckets, parse);
    if total <= 0.0 || |buckets| == 0 {
      return Ms(0);
    }
    ms := Scan(arr, Target(total, q));
  }
}
