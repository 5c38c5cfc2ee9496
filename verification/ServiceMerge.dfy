/**
 The store of all services' histories: one scrape feeds every buffer, a query adds several
 histories up, second by second.
 */
module ServiceMerge {
  import opened Common
  import opened ServiceSeries

  /** The retained points of each service. */
  type Histories = map<string, seq<Point>>

  // ----- what a merge means -----

  ghost function CountAt(h: Histories, t: int, c: string): string -> int {
    (name: string) => if name in h then Sum(h[name], CountWhen(t, c)) else 0
  }

  ghost function CountWhen(t: int, c: string): Point -> int {
    (p: Point) => if p.t == t then At(p.counts, c) else 0
  }

  ghost predicate Seen(h: Histories, names: set<string>, t: int) {
    exists name, i :: name in names && name in h && 0 <= i < |h[name]| && h[name][i].t == t
  }

  ghost predicate SeenClass(h: Histories, names: set<string>, t: int, c: string) {
    exists name, i :: name in names && name in h && 0 <= i < |h[name]| && h[name][i].t == t && c in h[name][i].counts
  }

  /** `m` adds the histories of `names` up, whatever order they are visited in. */
  ghost predicate Merges(m: map<int, map<string, int>>, h: Histories, names: set<string>) {
    && (forall t :: t in m <==> Seen(h, names, t))
    && (forall t, c :: t in m ==> (c in m[t] <==> SeenClass(h, names, t, c)))
    && (forall t, c :: t in m ==> At(m[t], c) == SetSum(names, CountAt(h, t, c)))
  }

  predicate Increasing(s: seq<Point>) {
    forall i, j :: 0 <= i < j < |s| ==> s[i].t < s[j].t
  }

  predicate HasTime(s: seq<Point>, t: int) {
    exists i :: 0 <= i < |s| && s[i].t == t
  }

  /** The answer to a query: the merged counts by strictly increasing time. */
  ghost predicate IsMerged(out: seq<Point>, h: Histories, names: set<string>) {
    && Increasing(out)
    && (forall t :: HasTime(out, t) <==> Seen(h, names, t))
    && (forall i, c :: 0 <= i < |out| ==> (c in out[i].counts <==> SeenClass(h, names, out[i].t, c)))
    && (forall i, c :: 0 <= i < |out| ==> At(out[i].counts, c) == SetSum(names, CountAt(h, out[i].t, c)))
  }

  // ----- properties of the meaning -----

  /** There is only one answer. */
  lemma {:induction false} MergedIsUnique(a: seq<Point>, b: seq<Point>, h: Histories, names: set<string>)
    requires IsMerged(a, h, names) && IsMerged(b, h, names)
    ensures a == b
  {
    assert |a| == |b| && forall i :: 0 <= i < |a| ==> a[i].t == b[i].t by {
      SameTimes(a, b);
    }
    forall i | 0 <= i < |a| ensures a[i] == b[i] {
      assert forall c :: c in a[i].counts <==> c in b[i].counts;
      forall c | c in a[i].counts ensures a[i].counts[c] == b[i].counts[c] {
        assert At(a[i].counts, c) == At(b[i].counts, c);
      }
    }
  }

  lemma {:induction false} SameTimes(a: seq<Point>, b: seq<Point>)
    requires Increasing(a) && Increasing(b) && forall t :: HasTime(a, t) <==> HasTime(b, t)
    ensures |a| == |b| && forall i :: 0 <= i < |a| ==> a[i].t == b[i].t
  {
    if a == [] || b == [] {
      assert a != [] ==> HasTime(a, a[0].t);
      assert b != [] ==> HasTime(b, b[0].t);
    } else {
      var m, n := |a| - 1, |b| - 1;
      assert HasTime(b, a[m].t) && HasTime(a, b[n].t);
      assert a[m].t == b[n].t;
      forall t ensures HasTime(a[..m], t) <==> HasTime(b[..n], t) {
        ButLast(a, t);
        ButLast(b, t);
      }
      SameTimes(a[..m], b[..n]);
      assert forall i :: 0 <= i < m ==> a[..m][i].t == b[..n][i].t;
    }
  }

  lemma ButLast(s: seq<Point>, t: int)
    requires Increasing(s) && s != []
    ensures HasTime(s[..|s| - 1], t) <==> HasTime(s, t) && t != s[|s| - 1].t
  {
    var n := |s| - 1;
    if i :| 0 <= i < |s| && s[i].t == t && t != s[n].t {
      assert s[..n][i].t == t;
    }
  }

  // ----- conservation -----

  ghost function TotalOf(h: Histories, c: string): string -> int {
    (name: string) => if name in h then Sum(h[name], CountOf(c)) else 0
  }

  /** What the points `ps` recorded at the time of a merged point. */
  ghost function AtTimeOf(ps: seq<Point>, c: string): Point -> int {
    (q: Point) => Sum(ps, CountWhen(q.t, c))
  }

  ghost function Hit(p: Point, c: string): Point -> int {
    (q: Point) => if p.t == q.t then At(p.counts, c) else 0
  }

  lemma {:induction false} HitOnce(out: seq<Point>, p: Point, c: string)
    requires Increasing(out)
    ensures Sum(out, Hit(p, c)) == if HasTime(out, p.t) then At(p.counts, c) else 0
  {
    if out != [] {
      var rest := out[1..];
      HitOnce(rest, p, c);
      if HasTime(rest, p.t) {
        var i :| 0 <= i < |rest| && rest[i].t == p.t;
        assert out[i + 1].t == p.t;
      } else if HasTime(out, p.t) {
        var i :| 0 <= i < |out| && out[i].t == p.t;
        assert i > 0 ==> rest[i - 1].t == p.t;
      }
    }
  }

  /** Every point of one history is found again at exactly one time. */
  lemma {:induction false} HistoryIsSpread(out: seq<Point>, ps: seq<Point>, c: string)
    requires Increasing(out) && forall p :: p in ps ==> HasTime(out, p.t)
    ensures Sum(out, AtTimeOf(ps, c)) == Sum(ps, CountOf(c))
  {
    if ps == [] {
      SumZero(out, AtTimeOf(ps, c));
    } else {
      HistoryIsSpread(out, ps[1..], c);
      HitOnce(out, ps[0], c);
      assert ps[0] in ps;
      SumPlus(out, AtTimeOf(ps, c), Hit(ps[0], c), AtTimeOf(ps[1..], c));
    }
  }

  ghost function MergedAt(h: Histories, names: set<string>, c: string): Point -> int {
    (q: Point) => SetSum(names, CountAt(h, q.t, c))
  }

  ghost function Across(out: seq<Point>, h: Histories, c: string): string -> int {
    (name: string) => if name in h then Sum(out, AtTimeOf(h[name], c)) else 0
  }

  lemma {:induction false} SumsExchange(out: seq<Point>, h: Histories, names: set<string>, c: string)
    ensures Sum(out, MergedAt(h, names, c)) == SetSum(names, Across(out, h, c))
  {
    if out == [] {
      SetSumZero(names, Across(out, h, c));
    } else {
      SumsExchange(out[1..], h, names, c);
      SetSumPlus(names, Across(out, h, c), CountAt(h, out[0].t, c), Across(out[1..], h, c));
    }
  }

  /** Merging loses and invents no request: per class, the answer holds exactly the requests of
      all matching histories. */
  lemma MergeConserves(out: seq<Point>, h: Histories, names: set<string>, c: string)
    requires IsMerged(out, h, names)
    ensures Sum(out, CountOf(c)) == SetSum(names, TotalOf(h, c))
  {
    SumSame(out, CountOf(c), MergedAt(h, names, c));
    SumsExchange(out, h, names, c);
    forall name | name in names && name in h ensures Across(out, h, c)(name) == TotalOf(h, c)(name) {
      forall p | p in h[name] ensures HasTime(out, p.t) {
        assert Seen(h, names, p.t);
      }
      HistoryIsSpread(out, h[name], c);
    }
    SetSumSame(names, Across(out, h, c), TotalOf(h, c));
  }

  // ----- the merge, point by point -----

  /** What one more point does to the counts of its second. */
  function Added(m: map<string, int>, counts: map<string, int>): map<string, int> {
    map c | c in m.Keys + counts.Keys :: At(m, c) + At(counts, c)
  }

  function PlusPoint(m: map<int, map<string, int>>, p: Point): map<int, map<string, int>> {
    m[p.t := Added(if p.t in m then m[p.t] else map[], p.counts)]
  }

  lemma CountAtOneMore(h: Histories, name: string, p: Point, names: set<string>, t: int, c: string)
    requires name in names && name in h
    ensures SetSum(names, CountAt(h[name := h[name] + [p]], t, c)) == SetSum(names, CountAt(h, t, c)) + CountWhen(t, c)(p)
  {
    var more := h[name := h[name] + [p]];
    SumConcat(h[name], [p], CountWhen(t, c));
    SumSingle(p, CountWhen(t, c));
    SetSumTake(names, name, CountAt(h, t, c));
    SetSumTake(names, name, CountAt(more, t, c));
    SetSumSame(names - {name}, CountAt(h, t, c), CountAt(more, t, c));
  }

  lemma SeenOneMore(h: Histories, name: string, p: Point, names: set<string>, t: int)
    requires name in names && name in h
    ensures Seen(h[name := h[name] + [p]], names, t) <==> Seen(h, names, t) || p.t == t
  {
    var more := h[name := h[name] + [p]];
    assert more[name][|h[name]|] == p;
    if Seen(h, names, t) {
      var n, i :| n in names && n in h && 0 <= i < |h[n]| && h[n][i].t == t;
      assert more[n][i].t == t;
    }
  }

  lemma SeenClassOneMore(h: Histories, name: string, p: Point, names: set<string>, t: int, c: string)
    requires name in names && name in h
    ensures SeenClass(h[name := h[name] + [p]], names, t, c) <==> SeenClass(h, names, t, c) || (p.t == t && c in p.counts)
  {
    var more := h[name := h[name] + [p]];
    assert more[name][|h[name]|] == p;
    if SeenClass(h, names, t, c) {
      var n, i :| n in names && n in h && 0 <= i < |h[n]| && h[n][i].t == t && c in h[n][i].counts;
      assert more[n][i].t == t;
    }
  }

  lemma UnseenCountsNothing(h: Histories, names: set<string>, t: int, c: string)
    requires !Seen(h, names, t)
    ensures SetSum(names, CountAt(h, t, c)) == 0
  {
    forall name | name in names && name in h ensures CountAt(h, t, c)(name) == 0 {
      forall p | p in h[name] ensures CountWhen(t, c)(p) == 0 {
        var i :| 0 <= i < |h[name]| && h[name][i] == p;
      }
      SumZero(h[name], CountWhen(t, c));
    }
    SetSumZero(names, CountAt(h, t, c));
  }

  lemma MergeOneMore(m: map<int, map<string, int>>, h: Histories, name: string, p: Point, names: set<string>)
    requires Merges(m, h, names) && name in names && name in h
    ensures Merges(PlusPoint(m, p), h[name := h[name] + [p]], names)
  {
    var more, after := h[name := h[name] + [p]], PlusPoint(m, p);
    forall t ensures t in after <==> Seen(more, names, t) {
      SeenOneMore(h, name, p, names, t);
    }
    forall t, c | t in after
      ensures (c in after[t] <==> SeenClass(more, names, t, c)) && At(after[t], c) == SetSum(names, CountAt(more, t, c)) {
      SeenClassOneMore(h, name, p, names, t, c);
      CountAtOneMore(h, name, p, names, t, c);
      if t !in m {
        UnseenCountsNothing(h, names, t, c);
      }
    }
  }

  lemma MergeNextHistory(m: map<int, map<string, int>>, h: Histories, name: string, names: set<string>)
    requires Merges(m, h, names) && name !in names
    ensures Merges(m, h[name := []], names + {name})
  {
    var with := h[name := []];
    forall t ensures Seen(with, names + {name}, t) <==> Seen(h, names, t) {
      if Seen(h, names, t) {
        var n, i :| n in names && n in h && 0 <= i < |h[n]| && h[n][i].t == t;
        assert with[n][i].t == t;
      }
    }
    forall t, c ensures SeenClass(with, names + {name}, t, c) <==> SeenClass(h, names, t, c) {
      if SeenClass(h, names, t, c) {
        var n, i :| n in names && n in h && 0 <= i < |h[n]| && h[n][i].t == t && c in h[n][i].counts;
        assert with[n][i].t == t;
      }
    }
    forall t, c ensures SetSum(names + {name}, CountAt(with, t, c)) == SetSum(names, CountAt(h, t, c)) {
      SetSumAdd(names, name, CountAt(with, t, c));
      SetSumSame(names, CountAt(with, t, c), CountAt(h, t, c));
    }
  }

  // ----- the sorted answer -----

  lemma RepeatCounts(s: seq<int>, i: nat, j: nat)
    requires i < j < |s|
    ensures s[i] == s[j] ==> multiset(s)[s[i]] >= 2
  {
    assert s == s[..j] + s[j..];
    assert s[i] in s[..j] && s[j] in s[j..];
  }

  lemma MultisetOfSetIsDistinct(s: seq<int>, keys: set<int>)
    requires multiset(s) == multiset(keys)
    ensures forall i, j :: 0 <= i < j < |s| ==> s[i] != s[j]
  {
    forall i, j | 0 <= i < j < |s| ensures s[i] != s[j] {
      RepeatCounts(s, i, j);
      assert multiset(keys)[s[i]] <= 1;
    }
  }

  lemma SortedTimesAreMerged(out: seq<Point>, ts: seq<int>, m: map<int, map<string, int>>, h: Histories, names: set<string>)
    requires Merges(m, h, names) && multiset(ts) == multiset(m.Keys)
    requires forall i, j :: 0 <= i < j < |ts| ==> ts[i] <= ts[j]
    requires |out| == |ts|
    requires forall i :: 0 <= i < |out| ==> ts[i] in m && out[i] == Point(ts[i], m[ts[i]])
    ensures IsMerged(out, h, names)
  {
    MultisetOfSetIsDistinct(ts, m.Keys);
    forall t ensures HasTime(out, t) <==> Seen(h, names, t) {
      if t in m {
        assert t in multiset(ts) && t in ts;
        var i :| 0 <= i < |ts| && ts[i] == t;
        assert out[i].t == t;
      }
    }
  }

  lemma NothingMerged(m: map<int, map<string, int>>, h: Histories)
    requires Merges(m, h, h.Keys) && (|h| == 0 || |m| == 0)
    ensures IsMerged([], h, h.Keys)
  {
    assert |m| == 0 ==> forall t :: t !in m;
    assert |h| == 0 ==> forall name :: name !in h;
  }

  // ----- the store -----

  /** The services of a scrape that carry class counters; the others are skipped. */
  function Reporting(services: map<string, Option<map<string, int>>>): set<string> {
    set name | name in services && services[name].Some?
  }

  /** Every reading of every service after the services `names` of a scrape were recorded. */
  function AfterScrape(rs: map<string, seq<Reading>>, now: int, services: map<string, Option<map<string, int>>>, names: set<string>)
    : map<string, seq<Reading>>
    requires names <= Reporting(services)
  {
    map name | name in rs.Keys + names ::
      (if name in rs then rs[name] else []) + if name in names then [Reading(now, services[name].value)] else []
  }

  /** A scrape adds one reading to every service that has class counters in it, and nothing else. */
  lemma ScrapeAddsReadings(rs: map<string, seq<Reading>>, now: int, services: map<string, Option<map<string, int>>>, name: string)
    ensures var after := AfterScrape(rs, now, services, Reporting(services));
            var counted := name in services && services[name].Some?;
            && (name in after <==> name in rs || counted)
            && (name in after ==>
                  after[name] == (if name in rs then rs[name] else [])
                                 + if counted then [Reading(now, services[name].value)] else [])
  {
  }

  function WithReading(rs: map<string, seq<Reading>>, name: string, r: Reading): map<string, seq<Reading>> {
    rs[name := (if name in rs then rs[name] else []) + [r]]
  }

  lemma ReportingHas(services: map<string, Option<map<string, int>>>, name: string)
    requires name in Reporting(services)
    ensures name in services && services[name].Some?
  {
  }

  lemma WithReadingIs(rs: map<string, seq<Reading>>, name: string, own: seq<Reading>, r: Reading)
    requires own == if name in rs then rs[name] else []
    ensures rs[name := own][name := own + [r]] == WithReading(rs, name, r)
  {
  }

  lemma NoServiceYet(rs: map<string, seq<Reading>>, now: int, services: map<string, Option<map<string, int>>>)
    ensures AfterScrape(rs, now, services, {}) == rs
  {
    assert forall name :: name in rs ==> rs[name] + [] == rs[name];
  }

  lemma OneMoreService(
    rs: map<string, seq<Reading>>, now: int, services: map<string, Option<map<string, int>>>, names: set<string>, name: string)
    requires names <= Reporting(services) && name in Reporting(services) && name !in names
    ensures AfterScrape(rs, now, services, names + {name}) ==
            WithReading(AfterScrape(rs, now, services, names), name, Reading(now, services[name].value))
  {
    var before, after := AfterScrape(rs, now, services, names), AfterScrape(rs, now, services, names + {name});
    assert name in rs ==> before[name] == rs[name] + [] == rs[name];
    assert after.Keys == before.Keys + {name};
  }

  lemma PlusPointIs(m: map<int, map<string, int>>, p: Point, counts: map<string, int>)
    requires counts == Added(if p.t in m then m[p.t] else map[], p.counts)
    ensures m[p.t := counts] == PlusPoint(m, p)
  {
  }

  class SeriesStore {
    var byName: map<string, ServiceBuffer>

    ghost predicate Valid()
      reads this, byName.Values
    {
      && (forall a, b :: a in byName && b in byName && a != b ==> byName[a] != byName[b])
      && (forall name :: name in byName ==> byName[name].Valid())
    }

    ghost function Readings(): map<string, seq<Reading>>
      reads this, byName.Values
    {
      map name | name in byName :: byName[name].readings
    }

    constructor ()
      ensures Valid() && byName == map[]
    {
      byName := map[];
    }

    ghost function Selected(matcher: string -> bool): Histories
      reads this, byName.Values
    {
      map name | name in byName && matcher(name) :: byName[name].points
    }

    /** A service seen for the first time gets an empty buffer. */
    method BufferOf(name: string) returns (buf: ServiceBuffer)
      requires Valid()
      modifies this
      ensures Valid() && name in byName && buf == byName[name]
      ensures buf.readings == if name in old(Readings()) then old(Readings())[name] else []
      ensures Readings() == old(Readings())[name := buf.readings]
      ensures byName.Values <= old(byName.Values) + {buf} && (buf in old(byName.Values) || fresh(buf))
    {
      hide ServiceBuffer.Valid;
      if name !in byName {
        buf := new ServiceBuffer();
        byName := byName[name := buf];
      }
      buf := byName[name];
    }

    method RecordInto(name: string, now: int, raw: map<string, int>)
      requires Valid() && name in byName
      modifies byName[name]
      ensures Valid()
      ensures Readings() == old(Readings())[name := old(byName[name].readings) + [Reading(now, raw)]]
    {
      hide ServiceBuffer.Valid;
      byName[name].Record(now, raw);
    }

    /** The body of the scrape loop. */
    method RecordService(name: string, now: int, raw: map<string, int>)
      requires Valid()
      modifies this, byName.Values
      ensures Valid() && fresh(byName.Values - old(byName.Values))
      ensures Readings() == WithReading(old(Readings()), name, Reading(now, raw))
    {
      hide *;
      var buf := BufferOf(name);
      WithReadingIs(old(Readings()), name, buf.readings, Reading(now, raw));
      RecordInto(name, now, raw);
    }

    method RecordSnapshot(now: int, services: map<string, Option<map<string, int>>>)
      requires Valid()
      modifies this, byName.Values
      ensures Valid() && fresh(byName.Values - old(byName.Values))
      ensures Readings() == AfterScrape(old(Readings()), now, services, Reporting(services))
    {
      ghost var rs := Readings();
      ghost var seen: set<string> := {};
      var todo := Reporting(services);
      NoServiceYet(rs, now, services);
      hide *;
      while todo != {}
        invariant Valid() && fresh(byName.Values - old(byName.Values))
        invariant seen + todo == Reporting(services) && seen !! todo
        invariant Readings() == AfterScrape(rs, now, services, seen)
        decreases todo
      {
        var name := Pick(todo);
        ReportingHas(services, name);
        RecordService(name, now, services[name].value);
        OneMoreService(rs, now, services, seen, name);
        todo, seen := todo - {name}, seen + {name};
      }
      assert seen == Reporting(services);
    }

    /** Adds up the histories of all services the matcher accepts. */
    method PointsForServices(matcher: string -> bool) returns (out: seq<Point>)
      ensures IsMerged(out, Selected(matcher), Selected(matcher).Keys)
    {
      var bufs := map name | name in byName && matcher(name) :: byName[name].points;
      assert bufs == Selected(matcher);
      hide Selected, Merges, IsMerged;
      var merged := Merge(bufs);
      if |bufs| == 0 || |merged| == 0 {
        NothingMerged(merged, bufs);
        return [];
      }
      out := InOrder(merged, bufs);
    }
  }

  method InOrder(merged: map<int, map<string, int>>, ghost bufs: Histories) returns (out: seq<Point>)
    requires Merges(merged, bufs, bufs.Keys)
    ensures IsMerged(out, bufs, bufs.Keys)
  {
    hide *;
    var ts := Keys(merged.Keys);
    SortInt64Asc(ts);
    out := [];
    for i := 0 to ts.Length
      invariant |out| == i
      invariant forall k :: 0 <= k < i ==> ts[k] in merged && out[k] == Point(ts[k], merged[ts[k]])
    {
      assert ts[i] in multiset(ts[..]);
      out := out + [Point(ts[i], merged[ts[i]])];
    }
    SortedTimesAreMerged(out, ts[..], merged, bufs, bufs.Keys);
  }

  method Merge(bufs: Histories) returns (merged: map<int, map<string, int>>)
    ensures Merges(merged, bufs, bufs.Keys)
  {
    ghost var seen: set<string> := {};
    var todo := bufs.Keys;
    merged := map[];
    while todo != {}
      invariant seen + todo == bufs.Keys && seen !! todo && Merges(merged, bufs, seen)
      decreases todo
    {
      hide *;
      var name :| name in todo;
      MergeNextHistory(merged, bufs, name, seen);
      todo, seen := todo - {name}, seen + {name};
      merged := MergeHistory(merged, bufs, name, seen, bufs[name]);
    }
    assert seen == bufs.Keys;
  }

  method MergeHistory(m: map<int, map<string, int>>, ghost bufs: Histories, name: string, ghost names: set<string>, points: seq<Point>)
    returns (merged: map<int, map<string, int>>)
    requires name in bufs && name in names && points == bufs[name] && Merges(m, bufs[name := []], names)
    ensures Merges(merged, bufs, names)
  {
    hide *;
    merged := m;
    for k := 0 to |points|
      invariant Merges(merged, bufs[name := points[..k]], names)
    {
      var p := points[k];
      var counts := AddCounts(if p.t in merged then merged[p.t] else map[], p.counts);
      ghost var part := bufs[name := points[..k]];
      MergeOneMore(merged, part, name, p, names);
      assert points[..k] + [p] == points[..k + 1];
      assert part[name := part[name] + [p]] == bufs[name := points[..k + 1]];
      PlusPointIs(merged, p, counts);
      merged := merged[p.t := counts];
    }
    assert points[..|points|] == points;
    assert bufs[name := points] == bufs;
  }

  method AddCounts(m: map<string, int>, counts: map<string, int>) returns (sum: map<string, int>)
    ensures sum == Added(m, counts)
  {
    sum := m;
    ghost var seen: set<string> := {};
    var todo := counts.Keys;
    while todo != {}
      invariant seen + todo == counts.Keys && seen !! todo && sum.Keys == m.Keys + seen
      invariant forall c :: c in sum ==> sum[c] == At(m, c) + if c in seen then counts[c] else 0
      decreases todo
    {
      var c :| c in todo;
      sum := sum[c := At(sum, c) + counts[c]];
      todo, seen := todo - {c}, seen + {c};
    }
  }

  method Keys(keys: set<int>) returns (ts: array<int>)
    ensures fresh(ts) && multiset(ts[..]) == multiset(keys)
  {
    var list: seq<int> := [];
    var todo := keys;
    while todo != {}
      invariant todo <= keys && multiset(list) == multiset(keys - todo)
      decreases todo
    {
      var t := Pick(todo);
      assert keys - (todo - {t}) == keys - todo + {t};
      list, todo := list + [t], todo - {t};
    }
    assert keys - todo == keys;
    ts := new int[|list|](i requires 0 <= i < |list| => list[i]);
    assert ts[..] == list;
  }
}
