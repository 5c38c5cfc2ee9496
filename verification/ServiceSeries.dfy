/**
 Per-service request histories: a sampler turns lifetime counters into per-window deltas, a
 query merges the histories of several services. Counters are integers.
 */
module ServiceSeries {
  import opened Common

  const MAX_POINTS: nat := 120

  datatype Point = Point(t: int, counts: map<string, int>)

  /** What one scrape said about a service. */
  datatype Reading = Reading(t: int, raw: map<string, int>)

  function PointOf(prev: map<string, int>, cur: Reading): Point {
    Point(cur.t, map c | c in cur.raw :: if cur.raw[c] < At(prev, c) then 0 else cur.raw[c] - At(prev, c))
  }

  /** All points of a service: one per reading, except where no non-empty baseline precedes it. */
  function Deltas(rs: seq<Reading>): seq<Point> {
    if |rs| < 2 then []
    else
      var n := |rs| - 1;
      Deltas(rs[..n]) + NewPoints(rs[n - 1].raw, rs[n])
  }

  function NewPoints(prev: map<string, int>, cur: Reading): seq<Point> {
    if prev == map[] then [] else [PointOf(prev, cur)]
  }

  function LastRaw(rs: seq<Reading>): map<string, int> {
    if rs == [] then map[] else rs[|rs| - 1].raw
  }

  lemma OneMoreReading(rs: seq<Reading>, cur: Reading)
    ensures Deltas(rs + [cur]) == Deltas(rs) + NewPoints(LastRaw(rs), cur)
  {
    assert (rs + [cur])[..|rs|] == rs;
    if rs == [] {
      assert Deltas(rs) == [] && NewPoints(map[], cur) == [];
    }
  }

  class ServiceBuffer {
    var points: seq<Point>
    var lastRaw: map<string, int>
    /** Every reading of the service, oldest first. */
    ghost var readings: seq<Reading>

    ghost predicate Valid()
      reads this
    {
      && points == Last(Deltas(readings), MAX_POINTS)
      && lastRaw == LastRaw(readings)
    }

    constructor ()
      ensures Valid() && readings == []
    {
      points, lastRaw, readings := [], map[], [];
    }

    /** The ring keeps the last points of everything ever pushed. */
    method Push(p: Point, ghost all: seq<Point>)
      requires points == Last(all, MAX_POINTS)
      modifies this`points
      ensures points == Last(all + [p], MAX_POINTS)
    {
      LastOfAppend(all, p, MAX_POINTS);
      points := points + [p];
      if |points| > MAX_POINTS {
        points := points[|points| - MAX_POINTS..];
      }
    }

    method Record(now: int, raw: map<string, int>)
      requires Valid()
      modifies this
      ensures Valid() && readings == old(readings) + [Reading(now, raw)]
    {
      OneMoreReading(readings, Reading(now, raw));
      ghost var all := Deltas(readings);
      if |lastRaw| > 0 {
        var counts := map c | c in raw :: if raw[c] < At(lastRaw, c) then 0 else raw[c] - At(lastRaw, c);
        assert NewPoints(lastRaw, Reading(now, raw)) == [Point(now, counts)];
        hide Deltas, NewPoints, PointOf, Last;
        Push(Point(now, counts), all);
      } else {
        assert all + NewPoints(lastRaw, Reading(now, raw)) == all;
        hide Deltas, NewPoints, PointOf, Last;
      }
      readings := readings + [Reading(now, raw)];
      lastRaw := raw;
    }
  }

  // ----- deltas and raw counters -----

  function CountOf(c: string): Point -> int {
    (p: Point) => At(p.counts, c)
  }

  ghost predicate Counters(rs: seq<Reading>) {
    forall i, c :: 0 <= i < |rs| && c in rs[i].raw ==> rs[i].raw[c] >= 0
  }

  /** No reading of class `c` is below the one before; a class that vanishes has fallen to 0. */
  ghost predicate NeverFalls(rs: seq<Reading>, c: string) {
    forall i :: 0 < i < |rs| ==> At(rs[i - 1].raw, c) <= At(rs[i].raw, c)
  }

  lemma NeverFallsStep(rs: seq<Reading>, c: string)
    requires |rs| >= 2
    ensures NeverFalls(rs, c) <==> NeverFalls(rs[..|rs| - 1], c) && At(rs[|rs| - 2].raw, c) <= At(rs[|rs| - 1].raw, c)
  {
    var n := |rs| - 1;
    assert forall i :: 0 <= i < n ==> rs[..n][i] == rs[i];
    if NeverFalls(rs[..n], c) && At(rs[n - 1].raw, c) <= At(rs[n].raw, c) {
      forall i | 0 < i < |rs| ensures At(rs[i - 1].raw, c) <= At(rs[i].raw, c) {
        if i < n {
          assert At(rs[..n][i - 1].raw, c) <= At(rs[..n][i].raw, c);
        }
      }
    }
  }

  /** One recorded point shows the gain of the counter, or zero when it fell. */
  lemma PointShowsGain(rs: seq<Reading>, i: nat, c: string)
    requires Counters(rs) && 0 < i < |rs|
    ensures var gain := At(rs[i].raw, c) - At(rs[i - 1].raw, c);
            At(PointOf(rs[i - 1].raw, rs[i]).counts, c) == if gain < 0 then 0 else gain
  {
  }

  /** How far class `c` fell in all, reset after reset. */
  function Fallen(rs: seq<Reading>, c: string): int {
    if |rs| < 2 then 0
    else
      var n := |rs| - 1;
      var gain := At(rs[n].raw, c) - At(rs[n - 1].raw, c);
      Fallen(rs[..n], c) + if gain < 0 then -gain else 0
  }

  /** What was counted right after empty readings, which leave no baseline and so no point. */
  function Missed(rs: seq<Reading>, c: string): int {
    if |rs| < 2 then 0
    else
      var n := |rs| - 1;
      Missed(rs[..n], c) + if rs[n - 1].raw == map[] then At(rs[n].raw, c) else 0
  }

  lemma AccountStep(rs: seq<Reading>, c: string)
    requires Counters(rs) && |rs| >= 2
    ensures var n := |rs| - 1;
            var gain := At(rs[n].raw, c) - At(rs[n - 1].raw, c);
            Sum(Deltas(rs), CountOf(c)) - Sum(Deltas(rs[..n]), CountOf(c)) ==
            gain + (Fallen(rs, c) - Fallen(rs[..n], c)) - (Missed(rs, c) - Missed(rs[..n], c))
  {
    var n := |rs| - 1;
    var added := NewPoints(rs[n - 1].raw, rs[n]);
    SumConcat(Deltas(rs[..n]), added, CountOf(c));
    PointShowsGain(rs, n, c);
    assert At(rs[n].raw, c) >= 0;
    SumSingle(PointOf(rs[n - 1].raw, rs[n]), CountOf(c));
    hide Counters, PointOf;
  }

  /** What is recorded is what the counter gained, plus what its falls hid, minus what empty
      readings hid. */
  lemma {:induction false} RecordedAccount(rs: seq<Reading>, c: string)
    requires Counters(rs) && rs != []
    ensures Sum(Deltas(rs), CountOf(c)) == At(rs[|rs| - 1].raw, c) - At(rs[0].raw, c) + Fallen(rs, c) - Missed(rs, c)
  {
    if |rs| >= 2 {
      AccountStep(rs, c);
      RecordedAccount(rs[..|rs| - 1], c);
    }
  }

  /** A window is recorded on its own. */
  lemma {:induction false} DeltasSplit(rs: seq<Reading>, m: nat)
    requires m < |rs|
    ensures Deltas(rs) == Deltas(rs[..m + 1]) + Deltas(rs[m..])
    decreases |rs|
  {
    hide *;
    var n := |rs| - 1;
    if m == n {
      assert rs[..m + 1] == rs;
      NothingRecorded(Deltas(rs), rs[m..]);
    } else {
      var init, window := rs[..n], rs[m..n];
      DeltasSplit(init, m);
      assert init[..m + 1] == rs[..m + 1] && init[m..] == window;
      assert rs == init + [rs[n]] && rs[m..] == window + [rs[n]];
      OneMoreReading(init, rs[n]);
      OneMoreReading(window, rs[n]);
      SameLastRaw(init, window, rs[n - 1]);
    }
  }

  lemma SameLastRaw(a: seq<Reading>, b: seq<Reading>, last: Reading)
    requires a != [] && b != [] && a[|a| - 1] == b[|b| - 1] == last
    ensures LastRaw(a) == LastRaw(b)
  {
  }

  lemma NothingRecorded(ps: seq<Point>, window: seq<Reading>)
    requires |window| == 1
    ensures ps + Deltas(window) == ps
  {
  }

  lemma {:induction false} FallenIffFalls(rs: seq<Reading>, c: string)
    ensures Fallen(rs, c) >= 0 && (Fallen(rs, c) == 0 <==> NeverFalls(rs, c))
  {
    if |rs| >= 2 {
      FallenIffFalls(rs[..|rs| - 1], c);
      NeverFallsStep(rs, c);
      hide NeverFalls;
    }
  }

  lemma {:induction false} NothingMissed(rs: seq<Reading>, c: string)
    requires rs != [] && forall i :: 0 <= i < |rs| - 1 ==> rs[i].raw != map[]
    ensures Missed(rs, c) == 0 && |Deltas(rs)| == |rs| - 1
  {
    if |rs| >= 2 {
      NothingMissed(rs[..|rs| - 1], c);
    }
  }

  lemma LastOfConcat<T>(a: seq<T>, b: seq<T>)
    ensures Last(a + b, |b|) == b
  {
  }

  predicate NoneEmpty(rs: seq<Reading>) {
    forall i :: 0 <= i < |rs| - 1 ==> rs[i].raw != map[]
  }

  lemma WindowAccount(window: seq<Reading>, c: string)
    requires Counters(window) && window != []
    ensures var recorded := Sum(Deltas(window), CountOf(c));
            var gained := At(window[|window| - 1].raw, c) - At(window[0].raw, c);
            && recorded == gained + Fallen(window, c) - Missed(window, c)
            && (NoneEmpty(window) ==>
                  |Deltas(window)| == |window| - 1 && recorded >= gained && (recorded == gained <==> NeverFalls(window, c)))
  {
    RecordedAccount(window, c);
    FallenIffFalls(window, c);
    if NoneEmpty(window) {
      NothingMissed(window, c);
    }
    hide *;
  }

  /** For any window of readings whose points are retained, the recorded requests of a class are
      the counter's gain plus its falls minus what follows an empty reading. Where no reading is
      empty that is at least the gain, and exactly the gain if and only if it never fell. */
  lemma RetainedDeltasTelescope(rs: seq<Reading>, m: nat, c: string)
    requires m < |rs| && Counters(rs) && |Deltas(rs[m..])| <= 120
    ensures var window := rs[m..];
            var recorded := Sum(Last(Last(Deltas(rs), MAX_POINTS), |Deltas(window)|), CountOf(c));
            var gained := At(rs[|rs| - 1].raw, c) - At(rs[m].raw, c);
            && recorded == gained + Fallen(window, c) - Missed(window, c)
            && (NoneEmpty(window) ==>
                  |Deltas(window)| == |window| - 1 && recorded >= gained && (recorded == gained <==> NeverFalls(window, c)))
  {
    var window := rs[m..];
    assert Counters(window);
    hide *;
    DeltasSplit(rs, m);
    LastOfConcat(Deltas(rs[..m + 1]), Deltas(window));
    LastOfLast(Deltas(rs), MAX_POINTS, |Deltas(window)|);
    WindowAccount(window, c);
  }

  /** For instance, a scrape without classes in between hides everything that was counted. */
  lemma EmptyReadingHidesRequests()
    ensures var rs := [Reading(0, map["2xx" := 5]), Reading(30, map[]), Reading(60, map["2xx" := 7])];
            Sum(Deltas(rs), CountOf("2xx")) == 0 && Fallen(rs, "2xx") == 5 && Missed(rs, "2xx") == 7
  {
    var empty: map<string, int> := map[];
    var rs := [Reading(0, map["2xx" := 5]), Reading(30, empty), Reading(60, map["2xx" := 7])];
    assert rs[..2] == [Reading(0, map["2xx" := 5]), Reading(30, empty)];
    assert rs[..2][..1] == [Reading(0, map["2xx" := 5])];
    RecordedAccount(rs, "2xx");
  }

  /** Whatever the counters do, no recorded delta is negative. */
  lemma {:induction false} DeltasAreNonNegative(rs: seq<Reading>, p: Point, c: string)
    requires p in Deltas(rs)
    ensures At(p.counts, c) >= 0
  {
    if |rs| >= 2 && p in Deltas(rs[..|rs| - 1]) {
      DeltasAreNonNegative(rs[..|rs| - 1], p, c);
    }
  }

  // ----- the in-place sort -----

  /** The first `n` elements are ascending, except that the one at `j` may be too small. */
  predicate AscendingBut(s: seq<int>, n: nat, j: nat) {
    forall k, l :: 0 <= k < l < n && l < |s| && l != j ==> s[k] <= s[l]
  }

  lemma SwapDown(s: seq<int>, n: nat, j: nat)
    requires AscendingBut(s, n, j) && 0 < j < n <= |s| && s[j] < s[j - 1]
    ensures var t := s[j := s[j - 1]][j - 1 := s[j]];
            multiset(t) == multiset(s) && AscendingBut(t, n, j - 1)
  {
    var t := s[j := s[j - 1]][j - 1 := s[j]];
    assert multiset(t) == multiset(s);
    assert forall k :: 0 <= k < j - 1 ==> s[k] <= s[j - 1];
  }

  lemma InPlace(s: seq<int>, n: nat, j: nat)
    requires AscendingBut(s, n, j) && n <= |s| && (0 < j < n ==> s[j - 1] <= s[j])
    ensures AscendingBut(s, n + 1, n)
  {
  }

  method SortInt64Asc(a: array<int>)
    modifies a
    ensures forall i, j :: 0 <= i < j < a.Length ==> a[i] <= a[j]
    ensures multiset(a[..]) == old(multiset(a[..]))
  {
    var i := 1;
    ghost var was := multiset(a[..]);
    assert AscendingBut(a[..], i + 1, i);
    while i < a.Length
      invariant 1 <= i && AscendingBut(a[..], i + 1, i) && multiset(a[..]) == was
    {
      hide *;
      var j := i;
      while j > 0 && a[j] < a[j - 1]
        invariant 0 <= j <= i && AscendingBut(a[..], i + 1, j) && multiset(a[..]) == was
      {
        ghost var s := a[..];
        SwapDown(s, i + 1, j);
        a[j], a[j - 1] := a[j - 1], a[j];
        assert a[..] == s[j := s[j - 1]][j - 1 := s[j]];
        j := j - 1;
      }
      InPlace(a[..], i + 1, j);
      i := i + 1;
    }
  }
}
