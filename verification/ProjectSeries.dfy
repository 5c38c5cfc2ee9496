/**
 Rolling per-project metrics in two resolutions: the last 120 points and, of every 20
 consecutive points, one aggregate, of which the last 1008 are kept. Counters and durations
 are exact integers.
 */
module ProjectSeries {
  import opened Common
  import opened TrafficDelta
  import Histogram

  datatype Requests = Requests(c2: int, c3: int, c4: int, c5: int)

  datatype Latency = Latency(avg: int, p50: int, p95: int, p99: int)

  datatype Metric = Metric(t: int, pods: int, cpu: int, memory: int, req: Requests, lat: Latency)

  const MAX_POINTS: nat := 120
  const LONG_TICKS: nat := 20
  const LONG_MAX: nat := 1008

  function Weight(r: Requests): int {
    r.c2 + r.c3 + r.c4 + r.c5
  }

  // ----- what a sequence of points amounts to -----

  /** Sums over points; `weighted` weights each latency by the requests of its point. */
  datatype Totals = Totals(pods: int, cpu: int, memory: int, req: Requests, weighted: Latency, weight: int)

  const ZERO := Totals(0, 0, 0, Requests(0, 0, 0, 0), Latency(0, 0, 0, 0), 0)

  function PlusReq(a: Requests, b: Requests): Requests {
    Requests(a.c2 + b.c2, a.c3 + b.c3, a.c4 + b.c4, a.c5 + b.c5)
  }

  function Plus(a: Totals, b: Totals): Totals {
    Totals(a.pods + b.pods, a.cpu + b.cpu, a.memory + b.memory,
           PlusReq(a.req, b.req),
           Latency(a.weighted.avg + b.weighted.avg, a.weighted.p50 + b.weighted.p50,
                   a.weighted.p95 + b.weighted.p95, a.weighted.p99 + b.weighted.p99),
           a.weight + b.weight)
  }

  function Scaled(l: Latency, w: int): Latency {
    Latency(l.avg * w, l.p50 * w, l.p95 * w, l.p99 * w)
  }

  function Share(m: Metric): Totals {
    var w := Weight(m.req);
    if w > 0
    then Totals(m.pods, m.cpu, m.memory, m.req, Scaled(m.lat, w), w)
    else ZERO.(pods := m.pods, cpu := m.cpu, memory := m.memory, req := m.req)
  }

  function TotalsOf(ms: seq<Metric>): Totals {
    if ms == [] then ZERO else Plus(TotalsOf(ms[..|ms| - 1]), Share(ms[|ms| - 1]))
  }

  lemma TotalsOfAppend(ms: seq<Metric>, pt: Metric)
    ensures TotalsOf(ms + [pt]) == Plus(TotalsOf(ms), Share(pt))
  {
    assert (ms + [pt])[..|ms|] == ms;
  }

  /** Integer division as the language has it, truncating toward zero. */
  function Quotient(a: int, b: int): int
    requires b > 0
  {
    if a >= 0 then a / b else -((-a) / b)
  }

  /** Means over the points, sums of the requests, request-weighted means of the latencies. */
  function Aggregate(ms: seq<Metric>): Metric
    requires ms != []
  {
    var s := TotalsOf(ms);
    Metric(ms[|ms| - 1].t, Quotient(s.pods, |ms|), Quotient(s.cpu, |ms|), Quotient(s.memory, |ms|), s.req,
           if s.weight > 0
           then Latency(Quotient(s.weighted.avg, s.weight), Quotient(s.weighted.p50, s.weight),
                        Quotient(s.weighted.p95, s.weight), Quotient(s.weighted.p99, s.weight))
           else Latency(0, 0, 0, 0))
  }

  class LongAccum {
    var count: nat
    var lastTickT: int
    var podsSum: int
    var cpuSum: int
    var memSum: int
    var req: Requests
    var latWSum: Latency
    var latReqW: int

    /** The accumulator holds exactly the points `ms`. */
    ghost predicate Holds(ms: seq<Metric>)
      reads this
    {
      && count == |ms| && (ms != [] ==> lastTickT == ms[|ms| - 1].t)
      && Totals(podsSum, cpuSum, memSum, req, latWSum, latReqW) == TotalsOf(ms)
    }

    lemma CountIs(ms: seq<Metric>)
      requires Holds(ms)
      ensures count == |ms|
    {
    }

    constructor ()
      ensures Holds([])
    {
      count, lastTickT, podsSum, cpuSum, memSum, latReqW := 0, 0, 0, 0, 0, 0;
      req, latWSum := Requests(0, 0, 0, 0), Latency(0, 0, 0, 0);
    }

    method Add(pt: Metric, ghost ms: seq<Metric>)
      requires Holds(ms)
      modifies this
      ensures Holds(ms + [pt])
    {
      TotalsOfAppend(ms, pt);
      ghost var before := Totals(podsSum, cpuSum, memSum, req, latWSum, latReqW);
      hide Scaled, TotalsOf;
      count := count + 1;
      lastTickT := pt.t;
      podsSum, cpuSum, memSum := podsSum + pt.pods, cpuSum + pt.cpu, memSum + pt.memory;
      req := Requests(req.c2 + pt.req.c2, req.c3 + pt.req.c3, req.c4 + pt.req.c4, req.c5 + pt.req.c5);
      var w := Weight(pt.req);
      if w > 0 {
        var l := Scaled(pt.lat, w);
        latWSum := Latency(latWSum.avg + l.avg, latWSum.p50 + l.p50, latWSum.p95 + l.p95, latWSum.p99 + l.p99);
        latReqW := latReqW + w;
      }
      assert Totals(podsSum, cpuSum, memSum, req, latWSum, latReqW) == Plus(before, Share(pt));
    }

    method Flush(ghost ms: seq<Metric>) returns (pt: Metric)
      requires Holds(ms) && ms != []
      modifies this
      ensures pt == Aggregate(ms) && Holds([])
    {
      pt := Metric(lastTickT, Quotient(podsSum, count), Quotient(cpuSum, count), Quotient(memSum, count), req,
                   Latency(0, 0, 0, 0));
      if latReqW > 0 {
        pt := pt.(lat := Latency(Quotient(latWSum.avg, latReqW), Quotient(latWSum.p50, latReqW),
                                 Quotient(latWSum.p95, latReqW), Quotient(latWSum.p99, latReqW)));
      }
      count, lastTickT, podsSum, cpuSum, memSum, latReqW := 0, 0, 0, 0, 0, 0;
      req, latWSum := Requests(0, 0, 0, 0), Latency(0, 0, 0, 0);
    }
  }

  // ----- the two rings over the whole history -----

  /** One aggregate for every full run of 20 consecutive points. */
  function Downsampled(history: seq<Metric>): seq<Metric> {
    seq(|history| / LONG_TICKS, i requires 0 <= i < |history| / LONG_TICKS =>
      Aggregate(history[LONG_TICKS * i..LONG_TICKS * i + LONG_TICKS]))
  }

  function Unfinished(history: seq<Metric>): seq<Metric> {
    history[LONG_TICKS * (|history| / LONG_TICKS)..]
  }

  lemma OneMorePoint(history: seq<Metric>, pt: Metric)
    ensures var h := history + [pt];
            var chunk := Unfinished(history) + [pt];
            if |chunk| == LONG_TICKS
            then Downsampled(h) == Downsampled(history) + [Aggregate(chunk)] && Unfinished(h) == []
            else Downsampled(h) == Downsampled(history) && Unfinished(h) == chunk && |chunk| < LONG_TICKS
  {
    var h := history + [pt];
    var n := |history| / LONG_TICKS;
    forall i | 0 <= i < n
      ensures h[LONG_TICKS * i..LONG_TICKS * i + LONG_TICKS] == history[LONG_TICKS * i..LONG_TICKS * i + LONG_TICKS]
    {
    }
    if |h| % LONG_TICKS == 0 {
      assert |h| / LONG_TICKS == n + 1;
      assert h[LONG_TICKS * n..LONG_TICKS * n + LONG_TICKS] == Unfinished(history) + [pt];
    } else {
      assert |h| / LONG_TICKS == n;
    }
  }

  predicate Ordered(l: Latency) {
    l.p50 <= l.p95 <= l.p99
  }

  lemma {:induction false} TotalsOrdered(ms: seq<Metric>)
    requires forall m :: m in ms ==> Ordered(m.lat)
    ensures Ordered(TotalsOf(ms).weighted)
  {
    if ms != [] {
      TotalsOrdered(ms[..|ms| - 1]);
      var m := ms[|ms| - 1];
      var w := Weight(m.req);
      if w > 0 {
        assert m.lat.p50 * w <= m.lat.p95 * w <= m.lat.p99 * w;
      }
    }
  }

  lemma Multiple(x: int, d: int)
    requires d > 0
    ensures x >= 1 ==> x * d >= d
  {
  }

  lemma FloorMonotone(a: int, b: int, d: int)
    requires 0 <= a <= b && d > 0
    ensures 0 <= a / d <= b / d
  {
    assert (a / d - b / d) * d == (a / d) * d - (b / d) * d;
    Multiple(a / d - b / d, d);
  }

  lemma QuotientMonotone(a: int, b: int, d: int)
    requires a <= b && d > 0
    ensures Quotient(a, d) <= Quotient(b, d)
  {
    if a >= 0 {
      FloorMonotone(a, b, d);
    } else if b < 0 {
      FloorMonotone(-b, -a, d);
    } else {
      FloorMonotone(0, b, d);
      FloorMonotone(0, -a, d);
    }
  }

  /** Weighted integer means keep the order of the percentiles. */
  lemma AggregateOrdered(ms: seq<Metric>)
    requires ms != [] && forall m :: m in ms ==> Ordered(m.lat)
    ensures Ordered(Aggregate(ms).lat)
  {
    TotalsOrdered(ms);
    var s := TotalsOf(ms);
    if s.weight > 0 {
      QuotientMonotone(s.weighted.p50, s.weighted.p95, s.weight);
      QuotientMonotone(s.weighted.p95, s.weighted.p99, s.weight);
    }
  }

  // ----- what an aggregate is, in arithmetic -----

  datatype Column = Pods | Cpu | Memory | Avg | P50 | P95 | P99

  function ColumnOf(m: Metric, col: Column): int {
    match col
    case Pods => m.pods
    case Cpu => m.cpu
    case Memory => m.memory
    case Avg => m.lat.avg
    case P50 => m.lat.p50
    case P95 => m.lat.p95
    case P99 => m.lat.p99
  }

  predicate IsResource(col: Column) {
    col.Pods? || col.Cpu? || col.Memory?
  }

  /** Resources count every point alike; a latency counts as often as its point has requests. */
  function WeightIn(m: Metric, col: Column): int {
    if IsResource(col) then 1
    else
      var w := m.req.c2 + m.req.c3 + m.req.c4 + m.req.c5;
      if w > 0 then w else 0
  }

  ghost function WeightOf(col: Column): Metric -> int {
    (m: Metric) => WeightIn(m, col)
  }

  ghost function WeightedOf(col: Column): Metric -> int {
    (m: Metric) => ColumnOf(m, col) * WeightIn(m, col)
  }

  /** `q` is the mean of the total `sum` over `n`, without its fraction. */
  predicate IsMean(q: int, sum: int, n: int) {
    if sum >= 0 then q * n <= sum < q * n + n else q * n - n < sum <= q * n
  }

  lemma QuotientIsMean(sum: int, n: int)
    requires n > 0
    ensures IsMean(Quotient(sum, n), sum, n)
  {
  }

  /** The figure of the totals that belongs to a column. */
  function TotalIn(s: Totals, col: Column): int {
    match col
    case Pods => s.pods
    case Cpu => s.cpu
    case Memory => s.memory
    case Avg => s.weighted.avg
    case P50 => s.weighted.p50
    case P95 => s.weighted.p95
    case P99 => s.weighted.p99
  }

  lemma ShareInColumn(s: Totals, m: Metric, col: Column)
    ensures TotalIn(Plus(s, Share(m)), col) == TotalIn(s, col) + ColumnOf(m, col) * WeightIn(m, col)
    ensures Plus(s, Share(m)).weight == s.weight + WeightIn(m, Avg)
  {
  }

  lemma {:induction false} TotalsAreSums(ms: seq<Metric>, col: Column)
    ensures TotalIn(TotalsOf(ms), col) == Sum(ms, WeightedOf(col))
    ensures TotalsOf(ms).weight == Sum(ms, WeightOf(Avg))
    ensures IsResource(col) ==> Sum(ms, WeightOf(col)) == |ms|
    ensures !IsResource(col) ==> Sum(ms, WeightOf(col)) == Sum(ms, WeightOf(Avg))
  {
    if ms != [] {
      var n := |ms| - 1;
      TotalsAreSums(ms[..n], col);
      assert ms == ms[..n] + [ms[n]];
      ShareInColumn(TotalsOf(ms[..n]), ms[n], col);
      SumOneMore(ms[..n], ms[n], WeightedOf(col));
      SumOneMore(ms[..n], ms[n], WeightOf(Avg));
      SumOneMore(ms[..n], ms[n], WeightOf(col));
      hide Plus, Share, TotalIn, ColumnOf;
    }
  }

  lemma SumOneMore(ms: seq<Metric>, m: Metric, f: Metric -> int)
    ensures Sum(ms + [m], f) == Sum(ms, f) + f(m)
  {
    SumConcat(ms, [m], f);
    SumSingle(m, f);
  }

  /** An aggregate bears the time of its last point, and every column is the mean over the points,
      weighted by requests for latencies, or zero without requests. */
  lemma AggregateIsMean(ms: seq<Metric>, col: Column)
    requires ms != []
    ensures Aggregate(ms).t == ms[|ms| - 1].t
    ensures var weight := Sum(ms, WeightOf(col));
            if weight > 0 then IsMean(ColumnOf(Aggregate(ms), col), Sum(ms, WeightedOf(col)), weight)
            else ColumnOf(Aggregate(ms), col) == 0
  {
    TotalsAreSums(ms, col);
    var s := TotalsOf(ms);
    QuotientIsMean(TotalIn(s, col), if IsResource(col) then |ms| else if s.weight > 0 then s.weight else 1);
    hide Quotient, IsMean, TotalsOf;
  }

  lemma ScaledBetween(x: int, w: int, rest: int, sum: int, lo: int, hi: int)
    requires w >= 0 && lo <= x <= hi && lo * rest <= sum <= hi * rest
    ensures lo * (w + rest) <= x * w + sum <= hi * (w + rest)
  {
    assert lo * w <= x * w <= hi * w;
  }

  lemma {:induction false} WeightedBetween(ms: seq<Metric>, col: Column, lo: int, hi: int)
    requires forall m :: m in ms ==> lo <= ColumnOf(m, col) <= hi
    ensures lo * Sum(ms, WeightOf(col)) <= Sum(ms, WeightedOf(col)) <= hi * Sum(ms, WeightOf(col))
  {
    if ms != [] {
      WeightedBetween(ms[1..], col, lo, hi);
      var x, w := ColumnOf(ms[0], col), WeightIn(ms[0], col);
      var rest, sum := Sum(ms[1..], WeightOf(col)), Sum(ms[1..], WeightedOf(col));
      assert w >= 0 && Sum(ms, WeightOf(col)) == w + rest && Sum(ms, WeightedOf(col)) == x * w + sum;
      hide *;
      ScaledBetween(x, w, rest, sum, lo, hi);
    }
  }

  lemma MeanBetween(q: int, sum: int, n: int, lo: int, hi: int)
    requires n > 0 && IsMean(q, sum, n) && lo * n <= sum <= hi * n
    ensures lo <= q <= hi
  {
    if q < lo {
      Multiple(lo - q, n);
    }
    if q > hi {
      Multiple(q - hi, n);
    }
  }

  /** So every column lies between the least and the greatest of the points, and equal points have
      their common value for an aggregate. */
  lemma AggregateIsBetween(ms: seq<Metric>, col: Column, lo: int, hi: int)
    requires ms != [] && Sum(ms, WeightOf(col)) > 0 && forall m :: m in ms ==> lo <= ColumnOf(m, col) <= hi
    ensures lo <= ColumnOf(Aggregate(ms), col) <= hi
  {
    hide *;
    AggregateIsMean(ms, col);
    WeightedBetween(ms, col, lo, hi);
    MeanBetween(ColumnOf(Aggregate(ms), col), Sum(ms, WeightedOf(col)), Sum(ms, WeightOf(col)), lo, hi);
  }

  /** If every recorded point has ordered percentiles, so has everything either ring holds. */
  lemma RingsOrdered(history: seq<Metric>, n: nat)
    requires forall m :: m in history ==> Ordered(m.lat)
    ensures forall m :: m in Last(history, n) || m in Last(Downsampled(history), n) ==> Ordered(m.lat)
  {
    forall m | m in Last(Downsampled(history), n) ensures Ordered(m.lat) {
      assert m in Downsampled(history);
      var i :| 0 <= i < |Downsampled(history)| && Downsampled(history)[i] == m;
      AggregateOrdered(history[LONG_TICKS * i..LONG_TICKS * i + LONG_TICKS]);
    }
  }

  /** Downsampling loses no request: what is in no aggregate yet is in the accumulator. */
  lemma {:induction false} RequestsConserved(history: seq<Metric>)
    ensures TotalsOf(history).req == PlusReq(TotalsOf(Downsampled(history)).req, TotalsOf(Unfinished(history)).req)
  {
    hide *;
    if history == [] {
      EmptyHistory(history);
      NothingTotals(history, Downsampled(history), Unfinished(history));
    } else {
      var n := |history| - 1;
      assert history == history[..n] + [history[n]];
      RequestsConserved(history[..n]);
      OnePointConserved(history[..n], history[n]);
    }
  }

  lemma NothingTotals(h: seq<Metric>, d: seq<Metric>, u: seq<Metric>)
    requires |h| == |d| == |u| == 0
    ensures TotalsOf(h).req == PlusReq(TotalsOf(d).req, TotalsOf(u).req)
  {
    hide TotalsOf;
    TotalsOfNothing(h);
    TotalsOfNothing(d);
    TotalsOfNothing(u);
  }

  lemma EmptyHistory(h: seq<Metric>)
    requires h == []
    ensures |Downsampled(h)| == 0 && |Unfinished(h)| == 0
  {
  }

  lemma TotalsOfNothing(ms: seq<Metric>)
    requires |ms| == 0
    ensures TotalsOf(ms) == ZERO
  {
  }

  lemma OnePointConserved(h: seq<Metric>, pt: Metric)
    requires TotalsOf(h).req == PlusReq(TotalsOf(Downsampled(h)).req, TotalsOf(Unfinished(h)).req)
    ensures TotalsOf(h + [pt]).req == PlusReq(TotalsOf(Downsampled(h + [pt])).req, TotalsOf(Unfinished(h + [pt])).req)
  {
    OneMorePoint(h, pt);
    var chunk := Unfinished(h) + [pt];
    var total := Aggregate(chunk);
    RequestsOfShare(total, chunk);
    RequestsOfShare(pt, chunk);
    TotalsOfAppend(h, pt);
    TotalsOfAppend(Unfinished(h), pt);
    TotalsOfAppend(Downsampled(h), total);
    RequestsBalance(TotalsOf(h).req, TotalsOf(Downsampled(h)).req, TotalsOf(Unfinished(h)).req, pt.req);
    RequestsOfPlus(TotalsOf(h), Share(pt));
    RequestsOfPlus(TotalsOf(Unfinished(h)), Share(pt));
    RequestsOfPlus(TotalsOf(Downsampled(h)), Share(total));
    if |chunk| == LONG_TICKS {
      TotalsOfNothing(Unfinished(h + [pt]));
    }
    hide *;
  }

  lemma RequestsOfPlus(a: Totals, b: Totals)
    ensures Plus(a, b).req == PlusReq(a.req, b.req)
  {
  }

  lemma RequestsOfShare(m: Metric, ms: seq<Metric>)
    requires ms != []
    ensures Share(m).req == m.req && Aggregate(ms).req == TotalsOf(ms).req
  {
  }

  lemma RequestsBalance(all: Requests, down: Requests, open: Requests, pt: Requests)
    requires all == PlusReq(down, open)
    ensures PlusReq(all, pt) == PlusReq(down, PlusReq(open, pt))
    ensures PlusReq(all, pt) == PlusReq(PlusReq(down, PlusReq(open, pt)), Requests(0, 0, 0, 0))
  {
  }

  // ----- one tick -----

  function ClassDeltas(raw: map<string, int>, prev: map<string, int>): Requests {
    Requests(if "2xx" in raw then Delta(raw["2xx"], At(prev, "2xx")) else 0,
             if "3xx" in raw then Delta(raw["3xx"], At(prev, "3xx")) else 0,
             if "4xx" in raw then Delta(raw["4xx"], At(prev, "4xx")) else 0,
             if "5xx" in raw then Delta(raw["5xx"], At(prev, "5xx")) else 0)
  }

  ghost function RequestDeltas(b: Baseline, ts: map<string, Traffic>, svcs: set<string>): Requests {
    Requests(SetSum(svcs, ClassDelta(b, ts, "2xx")), SetSum(svcs, ClassDelta(b, ts, "3xx")),
             SetSum(svcs, ClassDelta(b, ts, "4xx")), SetSum(svcs, ClassDelta(b, ts, "5xx")))
  }

  lemma RequestDeltasAdd(b: Baseline, ts: map<string, Traffic>, svcs: set<string>, svc: string)
    requires svc !in svcs && svc in ts
    ensures RequestDeltas(b, ts, svcs + {svc}) ==
            if svc in b then PlusReq(RequestDeltas(b, ts, svcs), ClassDeltas(ts[svc].byClass, b[svc].byClass))
            else RequestDeltas(b, ts, svcs)
  {
    SetSumAdd(svcs, svc, ClassDelta(b, ts, "2xx"));
    SetSumAdd(svcs, svc, ClassDelta(b, ts, "3xx"));
    SetSumAdd(svcs, svc, ClassDelta(b, ts, "4xx"));
    SetSumAdd(svcs, svc, ClassDelta(b, ts, "5xx"));
  }

  lemma NothingVisited(b: Baseline, ts: map<string, Traffic>)
    ensures RequestDeltas(b, ts, {}) == Requests(0, 0, 0, 0)
    ensures SetSum({}, DurationDelta(b, ts)) == 0 && SetSum({}, CountDelta(b, ts)) == 0 && IsBucketSum(map[], b, ts, {})
  {
  }

  lemma OneVisited(b: Baseline, ts: map<string, Traffic>, svcs: set<string>, svc: string)
    requires svc !in svcs && svc in ts
    ensures SetSum(svcs + {svc}, DurationDelta(b, ts)) ==
            SetSum(svcs, DurationDelta(b, ts)) + Delta(ts[svc].durationNs, if svc in b then b[svc].durationNs else 0)
    ensures SetSum(svcs + {svc}, CountDelta(b, ts)) ==
            SetSum(svcs, CountDelta(b, ts)) + Delta(ts[svc].count, if svc in b then b[svc].count else 0)
  {
    SetSumAdd(svcs, svc, DurationDelta(b, ts));
    SetSumAdd(svcs, svc, CountDelta(b, ts));
  }

  function IntOf(ms: Histogram.Millis, inf: int): int {
    if ms.Ms? then ms.n else inf
  }

  ghost predicate IsQuantile(p: int, agg: map<string, int>, parse: string -> Histogram.Bound, total: int, q: real, inf: int) {
    exists arr :: Histogram.IsListing(AsReal(agg), parse, arr) && p == IntOf(Histogram.QuantileOf(arr, total as real, q), inf)
  }

  /** The point's counters and latencies describe the window between two readings. */
  ghost predicate IsWindow(
    pt: Metric, b: Baseline, ts: map<string, Traffic>, svcs: set<string>, parse: string -> Histogram.Bound, inf: int)
  {
    var cnt := SetSum(svcs, CountDelta(b, ts));
    && pt.req == RequestDeltas(b, ts, svcs)
    && pt.lat.avg == (if cnt > 0 then Quotient(SetSum(svcs, DurationDelta(b, ts)), cnt * 1_000_000) else 0)
    && exists agg :: IsBucketSum(agg, b, ts, svcs)
         && if cnt > 0 && |agg| > 0
            then IsQuantile(pt.lat.p50, agg, parse, cnt, 0.5, inf) && IsQuantile(pt.lat.p95, agg, parse, cnt, 0.95, inf)
                 && IsQuantile(pt.lat.p99, agg, parse, cnt, 0.99, inf)
            else pt.lat.p50 == pt.lat.p95 == pt.lat.p99 == 0
  }

  // ----- ticks and raw counters -----

  const CLASSES := {"2xx", "3xx", "4xx", "5xx"}

  function ClassIn(r: Requests, cls: string): int
    requires cls in CLASSES
  {
    if cls == "2xx" then r.c2 else if cls == "3xx" then r.c3 else if cls == "4xx" then r.c4 else r.c5
  }

  lemma ClassOfDeltas(b: Baseline, ts: map<string, Traffic>, svcs: set<string>, cls: string)
    requires cls in CLASSES
    ensures ClassIn(RequestDeltas(b, ts, svcs), cls) == SetSum(svcs, ClassDelta(b, ts, cls))
  {
  }

  /** No counter is below the reading before. */
  ghost predicate NothingFell(b: Baseline, ts: map<string, Traffic>, svcs: set<string>) {
    forall svc :: svc in svcs && svc in b && svc in ts ==>
      && b[svc].count <= ts[svc].count && b[svc].durationNs <= ts[svc].durationNs
      && forall cls :: At(b[svc].byClass, cls) <= At(ts[svc].byClass, cls)
  }

  /** What counters gained between two readings. */
  ghost function Gain(b: Baseline, ts: map<string, Traffic>, svcs: set<string>, f: Traffic -> int): int {
    SetSum(svcs, Raw(ts, f)) - SetSum(svcs, Raw(b, f))
  }

  lemma WindowIs(pt: Metric, b: Baseline, ts: map<string, Traffic>, svcs: set<string>, parse: string -> Histogram.Bound, inf: int)
    requires IsWindow(pt, b, ts, svcs, parse, inf)
    ensures pt.req == RequestDeltas(b, ts, svcs)
    ensures var cnt, dur := SetSum(svcs, CountDelta(b, ts)), SetSum(svcs, DurationDelta(b, ts));
            && (if cnt > 0 then IsMean(pt.lat.avg, dur, cnt * 1_000_000) else pt.lat.avg == 0)
            && (cnt <= 0 ==> pt.lat.p50 == pt.lat.p95 == pt.lat.p99 == 0)
  {
    var cnt := SetSum(svcs, CountDelta(b, ts));
    QuotientIsMean(SetSum(svcs, DurationDelta(b, ts)), if cnt > 0 then cnt * 1_000_000 else 1);
    hide Quotient, IsMean, RequestDeltas, IsQuantile, IsBucketSum, SetSum, CountDelta, DurationDelta;
  }

  lemma ClassShowsGain(b: Baseline, ts: map<string, Traffic>, svcs: set<string>, cls: string)
    requires svcs <= ts.Keys && svcs <= b.Keys && NonNegative(b) && NonNegative(ts) && NothingFell(b, ts, svcs) && cls in CLASSES
    ensures ClassIn(RequestDeltas(b, ts, svcs), cls) == Gain(b, ts, svcs, OfClass(cls))
  {
    assert svcs * b.Keys == svcs;
    ClassOfDeltas(b, ts, svcs, cls);
    ClassDeltaIsGain(b, ts, svcs, cls);
    NoFallNoSum(svcs, b, ts, OfClass(cls));
    hide SetSum, Raw, Fall, NonNegative, NothingFell, RequestDeltas, OfClass;
  }

  lemma CountsShowGains(b: Baseline, ts: map<string, Traffic>, svcs: set<string>)
    requires svcs <= ts.Keys && svcs <= b.Keys && NonNegative(b) && NonNegative(ts) && NothingFell(b, ts, svcs)
    ensures SetSum(svcs, CountDelta(b, ts)) == Gain(b, ts, svcs, OfCount())
    ensures SetSum(svcs, DurationDelta(b, ts)) == Gain(b, ts, svcs, OfDuration())
  {
    CountDeltaIsGain(b, ts, svcs);
    NoFallNoSum(svcs, b, ts, OfCount());
    NoFallNoSum(svcs, b, ts, OfDuration());
    hide SetSum, Raw, Fall, NonNegative, NothingFell, OfCount, OfDuration, CountDelta, DurationDelta;
  }

  /** A tick whose services all have a baseline shows exactly what their counters gained, provided
      that none fell, and the mean of the time they gained over the requests they gained. */
  lemma SeededTickShowsGains(
    pt: Metric, b: Baseline, ts: map<string, Traffic>, svcs: set<string>, parse: string -> Histogram.Bound, inf: int)
    requires IsWindow(pt, b, ts, svcs, parse, inf) && svcs <= ts.Keys && svcs <= b.Keys
    requires NonNegative(b) && NonNegative(ts) && NothingFell(b, ts, svcs)
    ensures forall cls :: cls in CLASSES ==> ClassIn(pt.req, cls) == Gain(b, ts, svcs, OfClass(cls))
    ensures var cnt, dur := Gain(b, ts, svcs, OfCount()), Gain(b, ts, svcs, OfDuration());
            if cnt > 0 then IsMean(pt.lat.avg, dur, cnt * 1_000_000) else pt.lat.avg == 0
  {
    hide *;
    WindowIs(pt, b, ts, svcs, parse, inf);
    CountsShowGains(b, ts, svcs);
    forall cls | cls in CLASSES ensures ClassIn(pt.req, cls) == Gain(b, ts, svcs, OfClass(cls)) {
      ClassShowsGain(b, ts, svcs, cls);
    }
  }

  /** Reading the same counters once more shows an idle window. */
  lemma RepeatedScrapeIsIdle(pt: Metric, ts: map<string, Traffic>, svcs: set<string>, parse: string -> Histogram.Bound, inf: int)
    requires IsWindow(pt, BaselineOf(ts, svcs), ts, svcs, parse, inf)
    ensures pt.req == Requests(0, 0, 0, 0) && pt.lat == Latency(0, 0, 0, 0)
  {
    var b := BaselineOf(ts, svcs);
    WindowIs(pt, b, ts, svcs, parse, inf);
    NothingNew(ts, svcs);
    hide IsWindow, IsMean, BaselineOf;
  }

  lemma NothingNew(ts: map<string, Traffic>, svcs: set<string>)
    ensures var b := BaselineOf(ts, svcs); RequestDeltas(b, ts, svcs) == Requests(0, 0, 0, 0) && SetSum(svcs, CountDelta(b, ts)) == 0
  {
    var b := BaselineOf(ts, svcs);
    SetSumZero(svcs, ClassDelta(b, ts, "2xx"));
    SetSumZero(svcs, ClassDelta(b, ts, "3xx"));
    SetSumZero(svcs, ClassDelta(b, ts, "4xx"));
    SetSumZero(svcs, ClassDelta(b, ts, "5xx"));
    SetSumZero(svcs, CountDelta(b, ts));
  }

  /** A tick looks at nothing but the readings that it keeps as the next baseline. */
  lemma OwnReadingIsEnough(b: Baseline, ts: map<string, Traffic>, svcs: set<string>)
    requires svcs <= ts.Keys
    ensures var r := BaselineOf(ts, svcs); r.Keys == svcs && RequestDeltas(b, ts, svcs) == RequestDeltas(b, r, r.Keys)
  {
    var r := BaselineOf(ts, svcs);
    assert r.Keys == svcs;
    SetSumSame(svcs, ClassDelta(b, ts, "2xx"), ClassDelta(b, r, "2xx"));
    SetSumSame(svcs, ClassDelta(b, ts, "3xx"), ClassDelta(b, r, "3xx"));
    SetSumSame(svcs, ClassDelta(b, ts, "4xx"), ClassDelta(b, r, "4xx"));
    SetSumSame(svcs, ClassDelta(b, ts, "5xx"), ClassDelta(b, r, "5xx"));
  }

  // ----- the account of a whole history -----

  /** `rs` are the readings between the points `ms`: each point was recorded from its two. */
  ghost predicate Between(ms: seq<Metric>, rs: seq<Baseline>) {
    && |rs| == |ms| + 1
    && forall i :: 0 <= i < |ms| ==> ms[i].req == RequestDeltas(rs[i], rs[i + 1], rs[i + 1].Keys)
  }

  /** A lifetime counter, summed over the services of a reading. */
  ghost function Total(r: Baseline, f: Traffic -> int): int {
    SetSum(r.Keys, Raw(r, f))
  }

  /** By how much counters fell between readings. */
  ghost function Fallen(rs: seq<Baseline>, f: Traffic -> int): int {
    if |rs| < 2 then 0
    else
      var n := |rs| - 1;
      Fallen(rs[..n], f) + SetSum(rs[n].Keys * rs[n - 1].Keys, Fall(rs[n - 1], rs[n], f))
  }

  /** What services had counted when they were seen first, or again. */
  ghost function Appeared(rs: seq<Baseline>, f: Traffic -> int): int {
    if |rs| < 2 then 0
    else
      var n := |rs| - 1;
      Appeared(rs[..n], f) + SetSum(rs[n].Keys - rs[n - 1].Keys, Raw(rs[n], f))
  }

  /** What services had counted when they were seen last. */
  ghost function Vanished(rs: seq<Baseline>, f: Traffic -> int): int {
    if |rs| < 2 then 0
    else
      var n := |rs| - 1;
      Vanished(rs[..n], f) + SetSum(rs[n - 1].Keys - rs[n].Keys, Raw(rs[n - 1], f))
  }

  lemma TotalSplits(r: Baseline, some: set<string>, others: set<string>, f: Traffic -> int)
    requires some !! others && some + others == r.Keys
    ensures Total(r, f) == SetSum(some, Raw(r, f)) + SetSum(others, Raw(r, f))
  {
    SetSumSplit(r.Keys, some, Raw(r, f));
    assert r.Keys * some == some && r.Keys - some == others;
    hide SetSum, Raw;
  }

  lemma TickAccount(b: Baseline, r: Baseline, cls: string)
    requires NonNegative(b) && NonNegative(r)
    ensures SetSum(r.Keys, ClassDelta(b, r, cls)) ==
            Total(r, OfClass(cls)) - Total(b, OfClass(cls)) + SetSum(r.Keys * b.Keys, Fall(b, r, OfClass(cls)))
            - SetSum(r.Keys - b.Keys, Raw(r, OfClass(cls))) + SetSum(b.Keys - r.Keys, Raw(b, OfClass(cls)))
  {
    hide *;
    ClassDeltaIsGain(b, r, r.Keys, cls);
    TotalSplits(r, r.Keys * b.Keys, r.Keys - b.Keys, OfClass(cls));
    TotalSplits(b, r.Keys * b.Keys, b.Keys - r.Keys, OfClass(cls));
  }

  /** The requests of a class in any stretch of a project's history are what the counters gained
      from its first reading to its last, plus what falls took back, minus what services had
      counted before they were seen, plus what they had when they went. */
  lemma {:induction false} HistoryAccount(ms: seq<Metric>, rs: seq<Baseline>, cls: string)
    requires Between(ms, rs) && cls in CLASSES && forall i :: 0 <= i < |rs| ==> NonNegative(rs[i])
    ensures var f := OfClass(cls);
            ClassIn(TotalsOf(ms).req, cls) ==
            Total(rs[|ms|], f) - Total(rs[0], f) + Fallen(rs, f) - Appeared(rs, f) + Vanished(rs, f)
  {
    hide *;
    ReadingsAreMore(ms, rs);
    if ms == [] {
      NothingAccounted(ms, rs, cls);
    } else {
      var n := |ms| - 1;
      ButLast(ms, rs);
      HistoryAccount(ms[..n], rs[..n + 1], cls);
      TickAccount(rs[n], rs[n + 1], cls);
      LastTick(ms, rs, cls);
      LastReading(rs, OfClass(cls));
    }
  }

  /** Any stretch of a history has its own readings. */
  lemma StretchIsBetween(ms: seq<Metric>, rs: seq<Baseline>, from: nat, to: nat)
    requires Between(ms, rs) && from <= to <= |ms|
    ensures Between(ms[from..to], rs[from..to + 1])
  {
    hide RequestDeltas;
  }

  lemma OneMoreTick(ms: seq<Metric>, rs: seq<Baseline>, pt: Metric, r: Baseline)
    requires Between(ms, rs) && pt.req == RequestDeltas(rs[|ms|], r, r.Keys)
    ensures Between(ms + [pt], rs + [r])
  {
    hide RequestDeltas;
  }

  lemma NothingAccounted(ms: seq<Metric>, rs: seq<Baseline>, cls: string)
    requires ms == [] && |rs| == 1 && cls in CLASSES
    ensures ClassIn(TotalsOf(ms).req, cls) == 0
    ensures Fallen(rs, OfClass(cls)) == Appeared(rs, OfClass(cls)) == Vanished(rs, OfClass(cls)) == 0
  {
  }

  lemma ButLast(ms: seq<Metric>, rs: seq<Baseline>)
    requires Between(ms, rs) && ms != []
    ensures |rs| == |ms| + 1 && Between(ms[..|ms| - 1], rs[..|ms|])
  {
    hide RequestDeltas;
  }

  lemma ReadingsAreMore(ms: seq<Metric>, rs: seq<Baseline>)
    requires Between(ms, rs)
    ensures |rs| == |ms| + 1
  {
  }

  lemma ClassInPlus(a: Requests, b: Requests, cls: string)
    requires cls in CLASSES
    ensures ClassIn(PlusReq(a, b), cls) == ClassIn(a, cls) + ClassIn(b, cls)
  {
  }

  lemma LastTick(ms: seq<Metric>, rs: seq<Baseline>, cls: string)
    requires |rs| == |ms| + 1 && Between(ms, rs) && ms != [] && cls in CLASSES
    ensures var n := |ms| - 1;
            ClassIn(TotalsOf(ms).req, cls) == ClassIn(TotalsOf(ms[..n]).req, cls) + SetSum(rs[n + 1].Keys, ClassDelta(rs[n], rs[n + 1], cls))
  {
    var n := |ms| - 1;
    var before, last := TotalsOf(ms[..n]), Share(ms[n]);
    assert TotalsOf(ms) == Plus(before, last);
    assert ms[n].req == RequestDeltas(rs[n], rs[n + 1], rs[n + 1].Keys);
    hide *;
    RequestsOfPlus(before, last);
    RequestsOfShare(ms[n], ms);
    ClassInPlus(before.req, last.req, cls);
    ClassOfDeltas(rs[n], rs[n + 1], rs[n + 1].Keys, cls);
  }

  lemma LastReading(rs: seq<Baseline>, f: Traffic -> int)
    requires |rs| >= 2
    ensures var n := |rs| - 1;
            && Fallen(rs, f) == Fallen(rs[..n], f) + SetSum(rs[n].Keys * rs[n - 1].Keys, Fall(rs[n - 1], rs[n], f))
            && Appeared(rs, f) == Appeared(rs[..n], f) + SetSum(rs[n].Keys - rs[n - 1].Keys, Raw(rs[n], f))
            && Vanished(rs, f) == Vanished(rs[..n], f) + SetSum(rs[n - 1].Keys - rs[n].Keys, Raw(rs[n - 1], f))
  {
    hide SetSum, Fall, Raw;
  }

  /** The same services throughout, and no counter ever fell. */
  ghost predicate IsSteady(rs: seq<Baseline>, f: Traffic -> int) {
    forall i :: 0 < i < |rs| ==>
      rs[i].Keys == rs[i - 1].Keys && forall svc :: svc in rs[i] ==> f(rs[i - 1][svc]) <= f(rs[i][svc])
  }

  /** A steady stretch shows exactly what the counters gained. */
  lemma SteadyHistoryShowsGains(ms: seq<Metric>, rs: seq<Baseline>, cls: string)
    requires Between(ms, rs) && cls in CLASSES && forall i :: 0 <= i < |rs| ==> NonNegative(rs[i])
    requires IsSteady(rs, OfClass(cls))
    ensures ClassIn(TotalsOf(ms).req, cls) == Total(rs[|ms|], OfClass(cls)) - Total(rs[0], OfClass(cls))
  {
    hide *;
    HistoryAccount(ms, rs, cls);
    NothingUnsteady(rs, OfClass(cls));
    ReadingsAreMore(ms, rs);
  }

  lemma SteadyTick(b: Baseline, r: Baseline, f: Traffic -> int)
    requires r.Keys == b.Keys && forall svc :: svc in r ==> f(b[svc]) <= f(r[svc])
    ensures SetSum(r.Keys * b.Keys, Fall(b, r, f)) == 0
    ensures SetSum(r.Keys - b.Keys, Raw(r, f)) == 0 == SetSum(b.Keys - r.Keys, Raw(b, f))
  {
    NoFallNoSum(r.Keys * b.Keys, b, r, f);
    assert r.Keys - b.Keys == {} == b.Keys - r.Keys;
    hide Fall, Raw;
  }

  lemma SteadyUpTo(rs: seq<Baseline>, f: Traffic -> int)
    requires IsSteady(rs, f) && |rs| >= 2
    ensures var n := |rs| - 1;
            IsSteady(rs[..n], f) && rs[n].Keys == rs[n - 1].Keys && forall svc :: svc in rs[n] ==> f(rs[n - 1][svc]) <= f(rs[n][svc])
  {
  }

  lemma {:induction false} NothingUnsteady(rs: seq<Baseline>, f: Traffic -> int)
    requires IsSteady(rs, f)
    ensures Fallen(rs, f) == Appeared(rs, f) == Vanished(rs, f) == 0
  {
    if |rs| >= 2 {
      var n := |rs| - 1;
      SteadyUpTo(rs, f);
      SteadyTick(rs[n - 1], rs[n], f);
      LastReading(rs, f);
      hide *;
      NothingUnsteady(rs[..n], f);
    }
  }

  /** The le labels of the services denote different, non-negative bounds, and +Inf infinity. */
  ghost predicate LabelsOk(ts: map<string, Traffic>, svcs: set<string>, parse: string -> Histogram.Bound) {
    && parse(INF).Infinite?
    && (forall s, a | s in svcs && s in ts && a in ts[s].buckets ::
          parse(a).Finite? ==> parse(a).seconds >= 0.0)
    && (forall s, a, t, b | s in svcs && s in ts && a in ts[s].buckets && t in svcs && t in ts && b in ts[t].buckets ::
          parse(a) == parse(b) ==> a == b)
  }

  lemma AggregatedLabelsOk(
    agg: map<string, int>, b: Baseline, ts: map<string, Traffic>, svcs: set<string>, parse: string -> Histogram.Bound)
    requires LabelsOk(ts, svcs, parse) && IsBucketSum(agg, b, ts, svcs)
    ensures Histogram.Distinct(AsReal(agg), parse) && Histogram.BoundsNonNegative(AsReal(agg), parse)
  {
    forall x, y | x in agg && y in agg && x != y ensures parse(x) != parse(y) {
      var s :| s in svcs && s in ts && s in b && x in ts[s].buckets;
      var t :| t in svcs && t in ts && t in b && y in ts[t].buckets;
    }
  }

  lemma QuantileOfListing(
    p: int, agg: map<string, int>, parse: string -> Histogram.Bound, total: int, q: real, inf: int, arr: seq<Histogram.Bucket>)
    requires IsQuantile(p, agg, parse, total, q, inf) && Histogram.Distinct(AsReal(agg), parse)
    requires Histogram.IsListing(AsReal(agg), parse, arr)
    ensures p == IntOf(Histogram.QuantileOf(arr, total as real, q), inf)
  {
    var x :| Histogram.IsListing(AsReal(agg), parse, x) && p == IntOf(Histogram.QuantileOf(x, total as real, q), inf);
    hide Histogram.IsListing, Histogram.QuantileOf, AsReal, IntOf;
    Histogram.ListingIsUnique(AsReal(agg), parse, x, arr);
  }

  lemma BucketSumIsUnique(x: map<string, int>, y: map<string, int>, b: Baseline, ts: map<string, Traffic>, svcs: set<string>)
    requires IsBucketSum(x, b, ts, svcs) && IsBucketSum(y, b, ts, svcs)
    ensures x == y
  {
    assert forall le :: le in x <==> le in y;
    forall le | le in x ensures x[le] == y[le] {
      assert At(x, le) == SetSum(svcs, BucketDelta(b, ts, le)) == At(y, le);
    }
  }

  /** The percentiles of a point are the 0.5, 0.95 and 0.99 quantiles of the requests that the
      buckets gained in its window, whatever order anything was visited in. */
  lemma PercentilesOfWindow(
    pt: Metric, b: Baseline, ts: map<string, Traffic>, svcs: set<string>, parse: string -> Histogram.Bound, inf: int,
    agg: map<string, int>, arr: seq<Histogram.Bucket>)
    requires IsWindow(pt, b, ts, svcs, parse, inf) && LabelsOk(ts, svcs, parse)
    requires IsBucketSum(agg, b, ts, svcs) && Histogram.IsListing(AsReal(agg), parse, arr)
    requires SetSum(svcs, CountDelta(b, ts)) > 0 && |agg| > 0
    ensures var total := SetSum(svcs, CountDelta(b, ts)) as real;
            && pt.lat.p50 == IntOf(Histogram.QuantileOf(arr, total, 0.5), inf)
            && pt.lat.p95 == IntOf(Histogram.QuantileOf(arr, total, 0.95), inf)
            && pt.lat.p99 == IntOf(Histogram.QuantileOf(arr, total, 0.99), inf)
  {
    var cnt := SetSum(svcs, CountDelta(b, ts));
    var sums :| IsBucketSum(sums, b, ts, svcs)
      && if cnt > 0 && |sums| > 0
         then IsQuantile(pt.lat.p50, sums, parse, cnt, 0.5, inf) && IsQuantile(pt.lat.p95, sums, parse, cnt, 0.95, inf)
              && IsQuantile(pt.lat.p99, sums, parse, cnt, 0.99, inf)
         else pt.lat.p50 == pt.lat.p95 == pt.lat.p99 == 0;
    hide *;
    BucketSumIsUnique(sums, agg, b, ts, svcs);
    AggregatedLabelsOk(agg, b, ts, svcs, parse);
    QuantileOfListing(pt.lat.p50, agg, parse, cnt, 0.5, inf, arr);
    QuantileOfListing(pt.lat.p95, agg, parse, cnt, 0.95, inf, arr);
    QuantileOfListing(pt.lat.p99, agg, parse, cnt, 0.99, inf, arr);
  }

  lemma ListingOf(p: int, agg: map<string, int>, parse: string -> Histogram.Bound, total: int, q: real, inf: int)
    returns (arr: seq<Histogram.Bucket>)
    requires IsQuantile(p, agg, parse, total, q, inf)
    ensures Histogram.IsListing(AsReal(agg), parse, arr) && p == IntOf(Histogram.QuantileOf(arr, total as real, q), inf)
  {
    arr :| Histogram.IsListing(AsReal(agg), parse, arr) && p == IntOf(Histogram.QuantileOf(arr, total as real, q), inf);
  }

  lemma LabelsNameInfinity(ts: map<string, Traffic>, svcs: set<string>, parse: string -> Histogram.Bound)
    requires LabelsOk(ts, svcs, parse)
    ensures parse(INF).Infinite?
  {
  }

  lemma OrderedOf(l: Latency, p50: Histogram.Millis, p95: Histogram.Millis, p99: Histogram.Millis, inf: int)
    requires p50.Ms? && p95.Ms? && p99.Ms? && p50.n <= p95.n <= p99.n
    requires l.p50 == IntOf(p50, inf) && l.p95 == IntOf(p95, inf) && l.p99 == IntOf(p99, inf)
    ensures Ordered(l)
  {
  }

  lemma SeededQuantilesAreOrdered(
    l: Latency, agg: map<string, int>, b: Baseline, ts: map<string, Traffic>, svcs: set<string>, parse: string -> Histogram.Bound, inf: int)
    requires IsBucketSum(agg, b, ts, svcs) && agg != map[] && Consistent(b, ts, svcs) && LabelsOk(ts, svcs, parse)
    requires SetSum(svcs, Unseeded(b, ts)) == 0
    requires IsQuantile(l.p50, agg, parse, SetSum(svcs, CountDelta(b, ts)), 0.5, inf)
    requires IsQuantile(l.p95, agg, parse, SetSum(svcs, CountDelta(b, ts)), 0.95, inf)
    requires IsQuantile(l.p99, agg, parse, SetSum(svcs, CountDelta(b, ts)), 0.99, inf)
    ensures Ordered(l)
  {
    hide *;
    LabelsNameInfinity(ts, svcs, parse);
    var cnt := SetSum(svcs, CountDelta(b, ts));
    AggregatedLabelsOk(agg, b, ts, svcs, parse);
    var x := ListingOf(l.p50, agg, parse, cnt, 0.5, inf);
    QuantileOfListing(l.p95, agg, parse, cnt, 0.95, inf, x);
    QuantileOfListing(l.p99, agg, parse, cnt, 0.99, inf, x);
    SeededWindowIsOrdered(b, ts, svcs, agg, parse, x);
    var total := cnt as real;
    OrderedOf(l, Histogram.QuantileOf(x, total, 0.5), Histogram.QuantileOf(x, total, 0.95), Histogram.QuantileOf(x, total, 0.99), inf);
  }

  /** A tick all of whose services were seen before records p50 <= p95 <= p99. */
  lemma SeededTickIsOrdered(
    pt: Metric, b: Baseline, ts: map<string, Traffic>, svcs: set<string>, parse: string -> Histogram.Bound, inf: int)
    requires IsWindow(pt, b, ts, svcs, parse, inf) && Consistent(b, ts, svcs) && LabelsOk(ts, svcs, parse)
    requires SetSum(svcs, Unseeded(b, ts)) == 0
    ensures Ordered(pt.lat)
  {
    hide Consistent, LabelsOk, IsBucketSum, IsQuantile, SetSum;
    var cnt := SetSum(svcs, CountDelta(b, ts));
    var agg :| IsBucketSum(agg, b, ts, svcs)
      && if cnt > 0 && |agg| > 0
         then IsQuantile(pt.lat.p50, agg, parse, cnt, 0.5, inf) && IsQuantile(pt.lat.p95, agg, parse, cnt, 0.95, inf)
              && IsQuantile(pt.lat.p99, agg, parse, cnt, 0.99, inf)
         else pt.lat.p50 == pt.lat.p95 == pt.lat.p99 == 0;
    if cnt > 0 && |agg| > 0 {
      SeededQuantilesAreOrdered(pt.lat, agg, b, ts, svcs, parse, inf);
    }
  }

  /** LastByClass, LastDurSum, LastDurCnt and LastBuckets of a project buffer. The four maps
      always have the same keys, so they are kept as one map of readings. */
  class LastReadings {
    var last: Baseline

    constructor ()
      ensures last == map[]
    {
      last := map[];
    }

    /** Visits the matching services in any order, sums their deltas, stores the new readings
        and forgets the services that the snapshot no longer has. */
    method TakeDeltas(ts: map<string, Traffic>, matching: set<string>)
      returns (req: Requests, durD: int, cntD: int, agg: map<string, int>)
      requires matching <= ts.Keys
      modifies this
      ensures last == BaselineOf(ts, matching)
      ensures req == RequestDeltas(old(last), ts, matching)
      ensures durD == SetSum(matching, DurationDelta(old(last), ts)) && cntD == SetSum(matching, CountDelta(old(last), ts))
      ensures IsBucketSum(agg, old(last), ts, matching)
    {
      hide RequestDeltas, IsBucketSum, PlusReq, ClassDeltas, Accumulated, SetSum, DurationDelta, CountDelta, Delta;
      ghost var b := last;
      NothingVisited(b, ts);
      var todo := matching;
      ghost var seen: set<string> := {};
      req, durD, cntD, agg := Requests(0, 0, 0, 0), 0, 0, map[];
      while todo != {}
        invariant todo + seen == matching && todo !! seen && last.Keys == b.Keys + seen
        invariant forall svc :: svc in last ==> last[svc] == if svc in seen then ts[svc] else b[svc]
        invariant req == RequestDeltas(b, ts, seen)
        invariant durD == SetSum(seen, DurationDelta(b, ts)) && cntD == SetSum(seen, CountDelta(b, ts))
        invariant IsBucketSum(agg, b, ts, seen)
        decreases todo
      {
        var svc :| svc in todo;
        var t := ts[svc];
        ghost var before := agg;
        if svc in last {
          req := PlusReq(req, ClassDeltas(t.byClass, last[svc].byClass));
          agg := Accumulated(agg, t.buckets, last[svc].buckets);
        }
        durD := durD + Delta(t.durationNs, if svc in last then last[svc].durationNs else 0);
        cntD := cntD + Delta(t.count, if svc in last then last[svc].count else 0);
        last := last[svc := t];
        RequestDeltasAdd(b, ts, seen, svc);
        OneVisited(b, ts, seen, svc);
        BucketSumAdd(before, b, ts, seen, svc, agg);
        todo, seen := todo - {svc}, seen + {svc};
      }
      assert seen == matching;
      last := map svc | svc in last && svc in matching :: last[svc];
    }

    method Window(now: int, pods: int, cpu: int, memory: int, ts: map<string, Traffic>, matching: set<string>,
                  parse: string -> Histogram.Bound, inf: int) returns (pt: Metric)
      requires matching <= ts.Keys
      modifies this
      ensures last == BaselineOf(ts, matching)
      ensures pt.t == now && pt.pods == pods && pt.cpu == cpu && pt.memory == memory
      ensures IsWindow(pt, old(last), ts, matching, parse, inf)
    {
      hide RequestDeltas, IsBucketSum, SetSum, DurationDelta, CountDelta, Quotient, Histogram.IsListing, Histogram.QuantileOf, AsReal;
      var req, durD, cntD, agg := TakeDeltas(ts, matching);
      var lat := Latency(0, 0, 0, 0);
      if cntD > 0 {
        lat := lat.(avg := Quotient(durD, cntD * 1_000_000));
        if |agg| > 0 {
          var p50 := Histogram.HistogramQuantileMs(AsReal(agg), parse, cntD as real, 0.5);
          var p95 := Histogram.HistogramQuantileMs(AsReal(agg), parse, cntD as real, 0.95);
          var p99 := Histogram.HistogramQuantileMs(AsReal(agg), parse, cntD as real, 0.99);
          lat := lat.(p50 := IntOf(p50, inf), p95 := IntOf(p95, inf), p99 := IntOf(p99, inf));
        }
      }
      pt := Metric(now, pods, cpu, memory, req, lat);
    }
  }

  datatype RangeSpec = RangeSpec(useLong: bool, tail: nat)

  /** The table of ranges; anything else means "1h". */
  function SpecOf(key: string): RangeSpec {
    if key == "5m" then RangeSpec(false, 10)
    else if key == "15m" then RangeSpec(false, 30)
    else if key == "1d" then RangeSpec(true, 144)
    else if key == "1w" then RangeSpec(true, 1008)
    else RangeSpec(false, 120)
  }

  /** The point records a window all of whose services had a baseline. */
  ghost predicate IsSeeded(pt: Metric) {
    exists b, ts, svcs, parse, inf ::
      IsWindow(pt, b, ts, svcs, parse, inf) && Consistent(b, ts, svcs) && LabelsOk(ts, svcs, parse) && SetSum(svcs, Unseeded(b, ts)) == 0
  }

  /** If every tick of a history was seeded, every range of it reports p50 <= p95 <= p99. */
  lemma SeededHistoryIsServedOrdered(history: seq<Metric>, key: string)
    requires forall pt :: pt in history ==> IsSeeded(pt)
    ensures forall m :: m in Served(history, key) ==> Ordered(m.lat)
  {
    forall pt | pt in history ensures Ordered(pt.lat) {
      var b, ts, svcs, parse, inf :|
        IsWindow(pt, b, ts, svcs, parse, inf) && Consistent(b, ts, svcs) && LabelsOk(ts, svcs, parse) && SetSum(svcs, Unseeded(b, ts)) == 0;
      SeededTickIsOrdered(pt, b, ts, svcs, parse, inf);
    }
    hide IsSeeded, Downsampled;
    RingsOrdered(history, SpecOf(key).tail);
  }

  /** The points of a range are 30 or 600 seconds apart and reach back as far as its name says. */
  lemma RangesReachBack()
    ensures var span := (key: string) => SpecOf(key).tail * if SpecOf(key).useLong then 600 else 30;
            && span("5m") == 5 * 60 && span("15m") == 15 * 60 && span("1h") == span("") == 60 * 60
            && span("1d") == 24 * 60 * 60 && span("1w") == 7 * 24 * 60 * 60
  {
    assert "1h"[1] == 'h' && "5m"[1] == 'm' && "1d"[1] == 'd' && "1w"[1] == 'w';
    assert |"15m"| == 3 && |""| == 0;
  }

  /** What a range shows of a history. */
  function Served(history: seq<Metric>, key: string): seq<Metric> {
    Last(if SpecOf(key).useLong then Downsampled(history) else history, SpecOf(key).tail)
  }

  class ProjectBuf {
    var points: seq<Metric>
    var longPoints: seq<Metric>
    const longAccum: LongAccum
    const readings: LastReadings
    /** Every point ever recorded. */
    ghost var history: seq<Metric>
    /** The readings that the ticks left behind, the empty one first. */
    ghost var taken: seq<Baseline>

    ghost predicate Valid()
      reads this, longAccum, readings
    {
      RingsHold() && Between(history, taken) && taken[0] == map[] && taken[|history|] == readings.last
    }

    ghost predicate RingsHold()
      reads this, longAccum
    {
      && points == Last(history, MAX_POINTS)
      && longPoints == Last(Downsampled(history), LONG_MAX)
      && longAccum.Holds(Unfinished(history))
    }

    constructor ()
      ensures Valid() && history == [] && fresh(longAccum) && fresh(readings)
    {
      points, longPoints, history, taken := [], [], [], [map[]];
      readings := new LastReadings();
      longAccum := new LongAccum();
    }

    method Append(pt: Metric)
      requires RingsHold()
      modifies this`points, this`longPoints, this`history, longAccum
      ensures RingsHold() && history == old(history) + [pt]
    {
      hide Downsampled, Unfinished, LongAccum.Holds, Aggregate;
      LastOfAppend(history, pt, MAX_POINTS);
      Downsample(pt);
      points := points + [pt];
      if |points| > MAX_POINTS {
        points := points[|points| - MAX_POINTS..];
      }
      history := history + [pt];
    }

    /** Folds the point into the running aggregate, and emits the aggregate of every 20. */
    method Downsample(pt: Metric)
      requires RingsHold()
      modifies this`longPoints, longAccum
      ensures longPoints == Last(Downsampled(history + [pt]), LONG_MAX) && longAccum.Holds(Unfinished(history + [pt]))
    {
      OneMorePoint(history, pt);
      ghost var chunk := Unfinished(history);
      hide Downsampled, Aggregate, TotalsOf, LongAccum.Holds, Unfinished;
      longAccum.Add(pt, chunk);
      longAccum.CountIs(chunk + [pt]);
      if longAccum.count >= LONG_TICKS {
        var aggregate := longAccum.Flush(chunk + [pt]);
        LastOfAppend(Downsampled(history), aggregate, LONG_MAX);
        longPoints := longPoints + [aggregate];
        if |longPoints| > LONG_MAX {
          longPoints := longPoints[|longPoints| - LONG_MAX..];
        }
      }
    }

    /** Appends the point that leads from the reading before to the one that is kept now. */
    method Keep(pt: Metric)
      requires RingsHold() && Between(history, taken) && taken[0] == map[]
      requires pt.req == RequestDeltas(taken[|history|], readings.last, readings.last.Keys)
      modifies this`points, this`longPoints, this`history, this`taken, longAccum
      ensures Valid() && history == old(history) + [pt] && taken == old(taken) + [readings.last]
    {
      OneMoreTick(history, taken, pt, readings.last);
      ReadingsAreMore(history, taken);
      hide RingsHold, Between, RequestDeltas;
      Append(pt);
      taken := taken + [readings.last];
    }

    /** One sampler tick. `inf` is what the platform makes of converting +Inf to an integer. */
    method RecordTick(now: int, pods: int, cpu: int, memory: int, ts: map<string, Traffic>, slug: string,
                      parse: string -> Histogram.Bound, inf: int)
      requires Valid()
      modifies this, longAccum, readings
      ensures Valid() && readings.last == BaselineOf(ts, Matching(ts, slug)) && taken == old(taken) + [readings.last]
      ensures exists pt :: history == old(history) + [pt]
                           && pt.t == now && pt.pods == pods && pt.cpu == cpu && pt.memory == memory
                           && IsWindow(pt, old(readings.last), ts, Matching(ts, slug), parse, inf)
    {
      var pt := readings.Window(now, pods, cpu, memory, ts, Matching(ts, slug), parse, inf);
      OwnReadingIsEnough(old(readings.last), ts, Matching(ts, slug));
      WindowIs(pt, old(readings.last), ts, Matching(ts, slug), parse, inf);
      hide RingsHold, Between, IsWindow, BaselineOf, Matching, RequestDeltas, IsMean;
      Keep(pt);
    }

    /** What the metrics endpoint returns for a range key. */
    method PointsFor(key: string) returns (pts: seq<Metric>, intervalS: int)
      requires Valid()
      ensures pts == Served(history, key)
      ensures intervalS == if SpecOf(key).useLong then 600 else 30
    {
      var spec := SpecOf(key);
      if spec.useLong {
        pts, intervalS := longPoints, 30 * LONG_TICKS;
        LastOfLast(Downsampled(history), LONG_MAX, spec.tail);
      } else {
        pts, intervalS := points, 30;
        LastOfLast(history, MAX_POINTS, spec.tail);
      }
      if |pts| > spec.tail {
        pts := pts[|pts| - spec.tail..];
      }
    }
  }
}
