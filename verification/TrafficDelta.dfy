/**
 One sampler tick for one project: per-service counters are turned into the deltas of the
 window, with the previous reading of every service as the baseline. Counters are integers,
 durations are integer nanoseconds.
 */
module TrafficDelta {
  import opened Common
  import opened Histogram

  datatype Traffic = Traffic(byClass: map<string, int>, durationNs: int, count: int, buckets: map<string, int>)

  /** The previous reading of every service. */
  type Baseline = map<string, Traffic>

  const INF := "+Inf"

  /** A counter that fell was reset, which shows as zero. */
  function Delta(raw: int, prev: int): int {
    if raw < prev then 0 else raw - prev
  }

  predicate Contains(s: string, part: string) {
    part <= s || (s != [] && Contains(s[1..], part))
  }

  function Matching(ts: map<string, Traffic>, slug: string): set<string> {
    set svc | svc in ts && Contains(svc, slug)
  }

  /** Requests of one class; a service without a baseline contributes nothing yet. */
  ghost function ClassDelta(b: Baseline, ts: map<string, Traffic>, cls: string): string -> int {
    (svc: string) =>
      if svc in ts && svc in b && cls in ts[svc].byClass then Delta(ts[svc].byClass[cls], At(b[svc].byClass, cls)) else 0
  }

  /** Durations and counts have no such test: without a baseline the lifetime value counts. */
  ghost function CountDelta(b: Baseline, ts: map<string, Traffic>): string -> int {
    (svc: string) => if svc in ts then Delta(ts[svc].count, if svc in b then b[svc].count else 0) else 0
  }

  ghost function DurationDelta(b: Baseline, ts: map<string, Traffic>): string -> int {
    (svc: string) => if svc in ts then Delta(ts[svc].durationNs, if svc in b then b[svc].durationNs else 0) else 0
  }

  ghost function BucketDelta(b: Baseline, ts: map<string, Traffic>, le: string): string -> int {
    (svc: string) =>
      if svc in ts && svc in b && le in ts[svc].buckets then Delta(ts[svc].buckets[le], At(b[svc].buckets, le)) else 0
  }

  /** The summed bucket deltas of the services `svcs`. */
  ghost predicate IsBucketSum(agg: map<string, int>, b: Baseline, ts: map<string, Traffic>, svcs: set<string>) {
    && (forall le :: le in agg <==> exists svc :: svc in svcs && svc in ts && svc in b && le in ts[svc].buckets)
    && (forall le :: At(agg, le) == SetSum(svcs, BucketDelta(b, ts, le)))
  }

  function BaselineOf(ts: map<string, Traffic>, svcs: set<string>): Baseline {
    map svc | svc in svcs && svc in ts :: ts[svc]
  }

  /** One more service is visited. */
  lemma BucketSumAdd(
    agg: map<string, int>, b: Baseline, ts: map<string, Traffic>, svcs: set<string>, svc: string, after: map<string, int>)
    requires IsBucketSum(agg, b, ts, svcs) && svc !in svcs && svc in ts
    requires after == if svc in b then Accumulated(agg, ts[svc].buckets, b[svc].buckets) else agg
    ensures IsBucketSum(after, b, ts, svcs + {svc})
  {
    forall le ensures At(after, le) == SetSum(svcs + {svc}, BucketDelta(b, ts, le)) {
      SetSumAdd(svcs, svc, BucketDelta(b, ts, le));
      assert At(agg, le) == SetSum(svcs, BucketDelta(b, ts, le));
    }
  }

  function Accumulated(agg: map<string, int>, raw: map<string, int>, prev: map<string, int>): map<string, int> {
    map le | le in agg.Keys + raw.Keys :: At(agg, le) + if le in raw then Delta(raw[le], At(prev, le)) else 0
  }

  function AsReal(m: map<string, int>): map<string, real> {
    map k | k in m :: m[k] as real
  }

  /** The services of a project are those whose name has the slug somewhere in it. */
  lemma {:induction false} ContainsIff(s: string, part: string)
    ensures Contains(s, part) <==> exists before, after :: s == before + part + after
  {
    if part <= s {
      assert s == [] + part + s[|part|..];
    } else if s != [] {
      ContainsIff(s[1..], part);
      if before, after :| s[1..] == before + part + after {
        assert s == ([s[0]] + before) + part + after;
      }
      if before, after :| s == before + part + after {
        assert before != [];
        assert s[1..] == before[1..] + part + after;
      }
    } else {
      assert forall before, after :: |s| < |before + part + after|;
    }
  }

  // ----- deltas and raw counters -----

  /** A figure of every service in a reading. */
  ghost function Raw(ts: map<string, Traffic>, f: Traffic -> int): string -> int {
    (svc: string) => if svc in ts then f(ts[svc]) else 0
  }

  /** By how much it is below the reading before. */
  ghost function Fall(b: Baseline, ts: map<string, Traffic>, f: Traffic -> int): string -> int {
    (svc: string) => if svc in b && svc in ts && f(ts[svc]) < f(b[svc]) then f(b[svc]) - f(ts[svc]) else 0
  }

  ghost function OfClass(cls: string): Traffic -> int {
    (t: Traffic) => At(t.byClass, cls)
  }

  ghost function OfBucket(le: string): Traffic -> int {
    (t: Traffic) => At(t.buckets, le)
  }

  ghost function OfCount(): Traffic -> int {
    (t: Traffic) => t.count
  }

  ghost function OfDuration(): Traffic -> int {
    (t: Traffic) => t.durationNs
  }

  ghost predicate NonNegative(ts: map<string, Traffic>) {
    forall svc :: svc in ts ==>
      && ts[svc].count >= 0 && ts[svc].durationNs >= 0
      && (forall cls :: cls in ts[svc].byClass ==> ts[svc].byClass[cls] >= 0)
      && (forall le :: le in ts[svc].buckets ==> ts[svc].buckets[le] >= 0)
  }

  lemma GainsAddUp(svcs: set<string>, delta: string -> int, raw: string -> int, prev: string -> int, fall: string -> int)
    requires forall svc :: svc in svcs ==> delta(svc) == raw(svc) - prev(svc) + fall(svc)
    ensures SetSum(svcs, delta) == SetSum(svcs, raw) - SetSum(svcs, prev) + SetSum(svcs, fall)
  {
    var both := (svc: string) => raw(svc) + fall(svc);
    SetSumPlus(svcs, both, raw, fall);
    SetSumPlus(svcs, both, delta, prev);
  }

  lemma ClassDeltaAt(b: Baseline, ts: map<string, Traffic>, svc: string, cls: string)
    requires NonNegative(b) && NonNegative(ts) && svc in ts && svc in b
    ensures ClassDelta(b, ts, cls)(svc) == Raw(ts, OfClass(cls))(svc) - Raw(b, OfClass(cls))(svc) + Fall(b, ts, OfClass(cls))(svc)
  {
  }

  lemma BucketDeltaAt(b: Baseline, ts: map<string, Traffic>, svc: string, le: string)
    requires NonNegative(b) && NonNegative(ts) && svc in ts && svc in b
    ensures BucketDelta(b, ts, le)(svc) == Raw(ts, OfBucket(le))(svc) - Raw(b, OfBucket(le))(svc) + Fall(b, ts, OfBucket(le))(svc)
  {
  }

  /** The requests of a class that a tick shows are what the counters of the services with a
      baseline gained since that baseline, where a counter that fell gains nothing. */
  lemma ClassDeltaIsGain(b: Baseline, ts: map<string, Traffic>, svcs: set<string>, cls: string)
    requires NonNegative(b) && NonNegative(ts) && svcs <= ts.Keys
    ensures var seeded := svcs * b.Keys;
            SetSum(svcs, ClassDelta(b, ts, cls)) ==
            SetSum(seeded, Raw(ts, OfClass(cls))) - SetSum(seeded, Raw(b, OfClass(cls))) + SetSum(seeded, Fall(b, ts, OfClass(cls)))
  {
    var seeded := svcs * b.Keys;
    SetSumSplit(svcs, b.Keys, ClassDelta(b, ts, cls));
    SetSumZero(svcs - b.Keys, ClassDelta(b, ts, cls));
    forall svc | svc in seeded
      ensures ClassDelta(b, ts, cls)(svc) == Raw(ts, OfClass(cls))(svc) - Raw(b, OfClass(cls))(svc) + Fall(b, ts, OfClass(cls))(svc)
    {
      ClassDeltaAt(b, ts, svc, cls);
    }
    hide *;
    GainsAddUp(seeded, ClassDelta(b, ts, cls), Raw(ts, OfClass(cls)), Raw(b, OfClass(cls)), Fall(b, ts, OfClass(cls)));
  }

  /** So are the counts of a histogram bucket. */
  lemma BucketDeltaIsGain(b: Baseline, ts: map<string, Traffic>, svcs: set<string>, le: string)
    requires NonNegative(b) && NonNegative(ts) && svcs <= ts.Keys
    ensures var seeded := svcs * b.Keys;
            SetSum(svcs, BucketDelta(b, ts, le)) ==
            SetSum(seeded, Raw(ts, OfBucket(le))) - SetSum(seeded, Raw(b, OfBucket(le))) + SetSum(seeded, Fall(b, ts, OfBucket(le)))
  {
    var seeded := svcs * b.Keys;
    SetSumSplit(svcs, b.Keys, BucketDelta(b, ts, le));
    SetSumZero(svcs - b.Keys, BucketDelta(b, ts, le));
    forall svc | svc in seeded
      ensures BucketDelta(b, ts, le)(svc) == Raw(ts, OfBucket(le))(svc) - Raw(b, OfBucket(le))(svc) + Fall(b, ts, OfBucket(le))(svc)
    {
      BucketDeltaAt(b, ts, svc, le);
    }
    hide *;
    GainsAddUp(seeded, BucketDelta(b, ts, le), Raw(ts, OfBucket(le)), Raw(b, OfBucket(le)), Fall(b, ts, OfBucket(le)));
  }

  /** Count and duration gain likewise, and a service without a baseline gains its lifetime. */
  lemma CountDeltaIsGain(b: Baseline, ts: map<string, Traffic>, svcs: set<string>)
    requires NonNegative(b) && NonNegative(ts) && svcs <= ts.Keys
    ensures SetSum(svcs, CountDelta(b, ts)) ==
            SetSum(svcs, Raw(ts, OfCount())) - SetSum(svcs, Raw(b, OfCount())) + SetSum(svcs, Fall(b, ts, OfCount()))
    ensures SetSum(svcs, DurationDelta(b, ts)) ==
            SetSum(svcs, Raw(ts, OfDuration())) - SetSum(svcs, Raw(b, OfDuration())) + SetSum(svcs, Fall(b, ts, OfDuration()))
  {
    GainsAddUp(svcs, CountDelta(b, ts), Raw(ts, OfCount()), Raw(b, OfCount()), Fall(b, ts, OfCount()));
    GainsAddUp(svcs, DurationDelta(b, ts), Raw(ts, OfDuration()), Raw(b, OfDuration()), Fall(b, ts, OfDuration()));
  }

  /** Where nothing fell. */
  lemma NoFallNoSum(svcs: set<string>, b: Baseline, ts: map<string, Traffic>, f: Traffic -> int)
    requires forall svc :: svc in svcs && svc in b && svc in ts ==> f(b[svc]) <= f(ts[svc])
    ensures SetSum(svcs, Fall(b, ts, f)) == 0
  {
    SetSumZero(svcs, Fall(b, ts, f));
  }

  // ----- when `total` is the count of the infinite bucket -----

  /** One scrape of a service: the infinite bucket counts every request. */
  ghost predicate Consistent(b: Baseline, ts: map<string, Traffic>, svcs: set<string>) {
    && svcs <= ts.Keys
    && (forall svc :: svc in svcs ==> INF in ts[svc].buckets && ts[svc].buckets[INF] == ts[svc].count >= 0)
    && (forall svc :: svc in svcs && svc in b ==> At(b[svc].buckets, INF) == b[svc].count)
  }

  ghost function Unseeded(b: Baseline, ts: map<string, Traffic>): string -> int {
    (svc: string) => if svc in ts && svc !in b then ts[svc].count else 0
  }

  /** The window's request count exceeds its infinite bucket by exactly the lifetime counts of
      the services seen for the first time. */
  lemma CountExceedsInfinity(b: Baseline, ts: map<string, Traffic>, svcs: set<string>)
    requires Consistent(b, ts, svcs)
    ensures SetSum(svcs, CountDelta(b, ts)) == SetSum(svcs, BucketDelta(b, ts, INF)) + SetSum(svcs, Unseeded(b, ts))
  {
    var f, g, h := CountDelta(b, ts), BucketDelta(b, ts, INF), Unseeded(b, ts);
    assert forall svc :: svc in svcs ==> f(svc) == g(svc) + h(svc);
    SetSumPlus(svcs, f, g, h);
  }

  lemma DocumentedByInfinity(agg: map<string, int>, parse: string -> Bound, arr: seq<Bucket>, total: int)
    requires IsListing(AsReal(agg), parse, arr) && Distinct(AsReal(agg), parse) && parse(INF).Infinite? && INF in agg
    ensures Documented(arr, total as real) <==> agg[INF] == total
  {
    var m := AsReal(agg);
    var b := Bucket(Infinite, total as real);
    ListingHolds(m, parse, arr, b);
    hide IsListing;
    assert Documented(arr, total as real) <==> b in arr;
    assert forall k :: k in m && parse(k) == Infinite ==> k == INF;
    if b in arr {
      var k :| k in m && b == Bucket(parse(k), m[k]);
    } else {
      assert b != Bucket(parse(INF), m[INF]);
    }
  }

  /** The window meets the precondition of the quantile function if and only if the services
      seen for the first time have served nothing so far. */
  lemma DocumentedIff(
    b: Baseline, ts: map<string, Traffic>, svcs: set<string>, agg: map<string, int>, parse: string -> Bound, arr: seq<Bucket>)
    requires Consistent(b, ts, svcs) && IsBucketSum(agg, b, ts, svcs) && agg != map[]
    requires IsListing(AsReal(agg), parse, arr) && Distinct(AsReal(agg), parse) && parse(INF).Infinite?
    ensures Documented(arr, SetSum(svcs, CountDelta(b, ts)) as real) <==> SetSum(svcs, Unseeded(b, ts)) == 0
  {
    CountExceedsInfinity(b, ts, svcs);
    InfinityIsSummed(b, ts, svcs, agg);
    hide *;
    DocumentedByInfinity(agg, parse, arr, SetSum(svcs, CountDelta(b, ts)));
  }

  lemma InfinityIsSummed(b: Baseline, ts: map<string, Traffic>, svcs: set<string>, agg: map<string, int>)
    requires Consistent(b, ts, svcs) && IsBucketSum(agg, b, ts, svcs) && agg != map[]
    ensures INF in agg && agg[INF] == SetSum(svcs, BucketDelta(b, ts, INF))
  {
    var le :| le in agg;
    var svc :| svc in svcs && svc in ts && svc in b && le in ts[svc].buckets;
    assert INF in ts[svc].buckets;
    assert At(agg, INF) == SetSum(svcs, BucketDelta(b, ts, INF));
  }

  /** Every window whose services all have a baseline reports p50 <= p95 <= p99. */
  lemma SeededWindowIsOrdered(
    b: Baseline, ts: map<string, Traffic>, svcs: set<string>, agg: map<string, int>, parse: string -> Bound, arr: seq<Bucket>)
    requires Consistent(b, ts, svcs) && IsBucketSum(agg, b, ts, svcs) && agg != map[] && SetSum(svcs, Unseeded(b, ts)) == 0
    requires IsListing(AsReal(agg), parse, arr) && parse(INF).Infinite?
    requires Distinct(AsReal(agg), parse) && BoundsNonNegative(AsReal(agg), parse)
    ensures var total := SetSum(svcs, CountDelta(b, ts)) as real;
            var p50, p95, p99 := QuantileOf(arr, total, 0.5), QuantileOf(arr, total, 0.95), QuantileOf(arr, total, 0.99);
            p50.Ms? && p95.Ms? && p99.Ms? && 0 <= p50.n <= p95.n <= p99.n
  {
    hide *;
    DocumentedIff(b, ts, svcs, agg, parse, arr);
    ListingIsProper(AsReal(agg), parse, arr);
    PercentilesAreOrdered(arr, SetSum(svcs, CountDelta(b, ts)) as real);
  }

  lemma InfinityComesLast(arr: seq<Bucket>, b: Bucket)
    requires Proper(arr) && b in arr && b.le.Infinite?
    ensures arr[|arr| - 1] == b
  {
    var k :| 0 <= k < |arr| && arr[k] == b;
    assert k == |arr| - 1 || ByBound(arr[k], arr[|arr| - 1]);
  }

  lemma AllBelowIffInfinityBelow(agg: map<string, int>, parse: string -> Bound, arr: seq<Bucket>, target: real)
    requires IsListing(AsReal(agg), parse, arr) && parse(INF).Infinite? && INF in agg
    requires forall le :: le in agg ==> agg[le] <= agg[INF]
    ensures Bucket(Infinite, agg[INF] as real) in arr
    ensures (forall k :: 0 <= k < |arr| ==> arr[k].v < target) <==> agg[INF] as real < target
  {
    var inf := Bucket(Infinite, agg[INF] as real);
    ListingHolds(AsReal(agg), parse, arr, inf);
    assert inf == Bucket(parse(INF), AsReal(agg)[INF]);
    hide IsListing;
    forall k | 0 <= k < |arr| ensures arr[k].v <= agg[INF] as real {
      ListingHolds(AsReal(agg), parse, arr, arr[k]);
    }
  }

  /** Exactly when a quantile of a cumulative window has no defined result: the services seen
      for the first time outweigh the requests the window can account for. */
  lemma UndefinedQuantileIff(
    b: Baseline, ts: map<string, Traffic>, svcs: set<string>, agg: map<string, int>, parse: string -> Bound, arr: seq<Bucket>, q: real)
    requires Consistent(b, ts, svcs) && IsBucketSum(agg, b, ts, svcs) && agg != map[] && q >= 0.0
    requires IsListing(AsReal(agg), parse, arr) && parse(INF).Infinite?
    requires Distinct(AsReal(agg), parse) && BoundsNonNegative(AsReal(agg), parse)
    requires INF in agg && (forall le :: le in agg ==> 0 <= agg[le] <= agg[INF])
    requires SetSum(svcs, CountDelta(b, ts)) > 0
    ensures QuantileOf(arr, SetSum(svcs, CountDelta(b, ts)) as real, q).ConvertedInfinity? <==>
            agg[INF] as real < Target((agg[INF] + SetSum(svcs, Unseeded(b, ts))) as real, q)
  {
    hide *;
    CountExceedsInfinity(b, ts, svcs);
    InfinityIsSummed(b, ts, svcs, agg);
    ListingIsProper(AsReal(agg), parse, arr);
    var total := SetSum(svcs, CountDelta(b, ts)) as real;
    AllBelowIffInfinityBelow(agg, parse, arr, Target(total, q));
    InfinityComesLast(arr, Bucket(Infinite, agg[INF] as real));
    UndefinedIff(arr, total, q);
  }

  /** For instance, one request of a known service of the project and three of its next one. */
  lemma NewServiceUndefinesTheMedian(parse: string -> Bound)
    requires parse(INF).Infinite?
    ensures var none: map<string, int> := map[];
            var b: Baseline := map["app-1111111" := Traffic(none, 0, 0, map[INF := 0])];
            var ts := map["app-1111111" := Traffic(none, 0, 1, map[INF := 1]), "app-2222222" := Traffic(none, 0, 3, map[INF := 3])];
            var svcs, agg, arr := Matching(ts, "app"), map[INF := 1], [Bucket(Infinite, 1.0)];
            && Consistent(b, ts, svcs) && IsBucketSum(agg, b, ts, svcs) && IsListing(AsReal(agg), parse, arr)
            && QuantileOf(arr, SetSum(svcs, CountDelta(b, ts)) as real, 0.5) == ConvertedInfinity
  {
    var none: map<string, int> := map[];
    var one, two := "app-1111111", "app-2222222";
    var b: Baseline := map[one := Traffic(none, 0, 0, map[INF := 0])];
    var ts := map[one := Traffic(none, 0, 1, map[INF := 1]), two := Traffic(none, 0, 3, map[INF := 3])];
    var agg, arr := map[INF := 1], [Bucket(Infinite, 1.0)];
    assert one[4] != two[4];
    assert "app" <= one && "app" <= two;
    assert Matching(ts, "app") == {one, two};
    TwoServices(one, two, b, ts);
    SingleListing(agg, parse, arr);
    hide *;
    MedianOfFourInOne(arr);
  }

  lemma MedianOfFourInOne(arr: seq<Bucket>)
    requires arr == [Bucket(Infinite, 1.0)]
    ensures QuantileOf(arr, 4.0, 0.5) == ConvertedInfinity
  {
    assert Target(4.0, 0.5) == 2.0;
    UndefinedIff(arr, 4.0, 0.5);
  }

  lemma TwoServices(x: string, y: string, b: Baseline, ts: map<string, Traffic>)
    requires x != y && b == map[x := Traffic(map[], 0, 0, map[INF := 0])]
    requires ts == map[x := Traffic(map[], 0, 1, map[INF := 1]), y := Traffic(map[], 0, 3, map[INF := 3])]
    ensures Consistent(b, ts, {x, y}) && IsBucketSum(map[INF := 1], b, ts, {x, y}) && SetSum({x, y}, CountDelta(b, ts)) == 4
  {
    SumOfTwo(x, y, CountDelta(b, ts));
    forall le ensures At(map[INF := 1], le) == SetSum({x, y}, BucketDelta(b, ts, le)) {
      SumOfTwo(x, y, BucketDelta(b, ts, le));
    }
  }

  lemma SumOfTwo(x: string, y: string, f: string -> int)
    requires x != y
    ensures SetSum({x, y}, f) == f(x) + f(y)
  {
    SetSumTake({x, y}, x, f);
    assert {x, y} - {x} == {y};
    SetSumTake({y}, y, f);
    assert {y} - {y} == {};
  }

  lemma SingleListing(agg: map<string, int>, parse: string -> Bound, arr: seq<Bucket>)
    requires agg == map[INF := 1] && parse(INF).Infinite? && arr == [Bucket(Infinite, 1.0)]
    ensures IsListing(AsReal(agg), parse, arr)
  {
    var keys := [INF];
    assert Visits(AsReal(agg), keys);
    assert Entries(AsReal(agg), parse, keys) == arr;
  }
}
