/**
 The fixed-window limiter: one counter per key and window, old windows are collected when the
 map grows. The clock reading of each call is a parameter, a call is one atomic step.
 */
module RateLimiter {
  import opened Common

  const MAX_ENTRIES: nat := 20000

  datatype RateKey = RateKey(key: string, window: int)

  /** One call: its clock reading, the counter it used, and the answer. */
  datatype Call = Call(now: int, k: RateKey, ok: bool)

  /** Integer division as the source does it, towards zero. */
  function Quotient(a: int, b: int): int
    requires b > 0
  {
    if a >= 0 then a / b else -(-a / b)
  }

  /** How many calls were admitted on a counter. */
  function Admitted(log: seq<Call>, k: RateKey): nat {
    if log == [] then 0
    else
      var c := log[|log| - 1];
      Admitted(log[..|log| - 1], k) + if c.k == k && c.ok then 1 else 0
  }

  /** A reading of window `w` lags the newest seen by at most one. */
  predicate Live(log: seq<Call>, w: int) {
    forall j :: 0 <= j < |log| ==> w >= log[j].k.window - 1
  }

  /** Every answer was right: refused exactly when the quota of the window was used up. */
  predicate Exact(log: seq<Call>, limit: int) {
    forall i :: 0 <= i < |log| && Live(log[..i], log[i].k.window) ==>
      (log[i].ok <==> limit <= 0 || Admitted(log[..i], log[i].k) < limit)
  }

  predicate Timed(log: seq<Call>, window: int)
    requires window > 0
  {
    forall i :: 0 <= i < |log| ==> log[i].k.window == Quotient(log[i].now, window)
  }

  /** No counter is too high, and the live ones are complete. */
  ghost predicate Counted(counts: map<RateKey, int>, log: seq<Call>) {
    forall k :: At(counts, k) <= Admitted(log, k) && (Live(log, k.window) ==> At(counts, k) == Admitted(log, k))
  }

  lemma OneMoreCall(log: seq<Call>, c: Call, k: RateKey)
    ensures Admitted(log + [c], k) == Admitted(log, k) + if c.k == k && c.ok then 1 else 0
    ensures forall w :: Live(log + [c], w) <==> Live(log, w) && w >= c.k.window - 1
  {
    assert (log + [c])[..|log|] == log;
    forall w ensures Live(log + [c], w) <==> Live(log, w) && w >= c.k.window - 1 {
      assert (log + [c])[|log|] == c;
      assert forall j :: 0 <= j < |log| ==> (log + [c])[j] == log[j];
    }
  }

  /** A map that has grown too large is rid of the counters more than one window older than `w`. */
  function Swept(counts: map<RateKey, int>, w: int): map<RateKey, int> {
    if |counts| > MAX_ENTRIES then map k | k in counts && k.window >= w - 1 :: counts[k] else counts
  }

  /** `kept` is what the collection before the call left of `counts`. */
  ghost predicate Collected(counts: map<RateKey, int>, kept: map<RateKey, int>, w: int) {
    forall k :: At(kept, k) == At(counts, k) || (k.window < w - 1 && At(kept, k) == 0)
  }

  lemma CallKeepsCounts(counts: map<RateKey, int>, kept: map<RateKey, int>, log: seq<Call>, c: Call)
    requires Counted(counts, log) && Collected(counts, kept, c.k.window)
    ensures Counted(if c.ok then kept[c.k := At(kept, c.k) + 1] else kept, log + [c])
  {
    forall k
      ensures var after := if c.ok then kept[c.k := At(kept, c.k) + 1] else kept;
              At(after, k) <= Admitted(log + [c], k) &&
              (Live(log + [c], k.window) ==> At(after, k) == Admitted(log + [c], k)) {
      OneMoreCall(log, c, k);
    }
  }

  lemma CallIsExact(log: seq<Call>, c: Call, limit: int)
    requires Exact(log, limit)
    requires Live(log, c.k.window) ==> (c.ok <==> limit <= 0 || Admitted(log, c.k) < limit)
    ensures Exact(log + [c], limit)
  {
    assert (log + [c])[..|log|] == log;
    assert forall i :: 0 <= i < |log| ==> (log + [c])[i] == log[i] && (log + [c])[..i] == log[..i];
  }

  lemma CallIsTimed(log: seq<Call>, now: int, key: string, ok: bool, window: int)
    requires window > 0 && Timed(log, window)
    ensures Timed(log + [Call(now, RateKey(key, Quotient(now, window)), ok)], window)
  {
  }

  class IpRateLimiter {
    const limit: int
    /** Whole seconds. */
    const window: int
    var counts: map<RateKey, int>
    ghost var log: seq<Call>

    ghost predicate Valid()
      reads this
    {
      && window > 0
      && Exact(log, limit) && Timed(log, window)
      && (limit > 0 ==> Counted(counts, log))
    }

    constructor (limit: int, window: int)
      requires window > 0
      ensures Valid() && this.limit == limit && this.window == window && log == [] && counts == map[]
    {
      this.limit, this.window := limit, window;
      counts, log := map[], [];
    }

    method Allow(key: string, now: int) returns (ok: bool)
      requires Valid()
      modifies this
      ensures Valid()
      ensures log == old(log) + [Call(now, RateKey(key, Quotient(now, window)), ok)]
      ensures limit <= 0 ==> ok && counts == old(counts)
      ensures !ok ==> Admitted(old(log), RateKey(key, Quotient(now, window))) >= limit
      ensures limit > 0 ==>
                var k, kept := RateKey(key, Quotient(now, window)), Swept(old(counts), Quotient(now, window));
                counts == if ok then kept[k := At(kept, k) + 1] else kept
    {
      hide Quotient, Admitted, Live, Exact, Timed, Counted;
      var w := Quotient(now, window);
      var k := RateKey(key, w);
      CallIsTimed(log, now, key, true, window);
      CallIsTimed(log, now, key, false, window);
      if limit <= 0 {
        CallIsExact(log, Call(now, k, true), limit);
        log := log + [Call(now, k, true)];
        return true;
      }
      if |counts| > MAX_ENTRIES {
        counts := Collect(counts, w);
      }
      assert Collected(old(counts), counts, w);
      var c := At(counts, k);
      AnswerIsRight(old(counts), counts, log, k);
      CallKeepsCounts(old(counts), counts, log, Call(now, k, c < limit));
      CallIsExact(log, Call(now, k, c < limit), limit);
      log := log + [Call(now, k, c < limit)];
      if c >= limit {
        return false;
      }
      counts := counts[k := c + 1];
      return true;
    }
  }

  lemma AnswerIsRight(counts: map<RateKey, int>, kept: map<RateKey, int>, log: seq<Call>, k: RateKey)
    requires Counted(counts, log) && Collected(counts, kept, k.window)
    ensures At(kept, k) <= Admitted(log, k) && (Live(log, k.window) ==> At(kept, k) == Admitted(log, k))
  {
  }

  /** Drops the counters more than one window older than `w`. */
  method Collect(counts: map<RateKey, int>, w: int) returns (rest: map<RateKey, int>)
    ensures rest == map k | k in counts && k.window >= w - 1 :: counts[k]
  {
    rest := counts;
    var todo := counts.Keys;
    while todo != {}
      invariant todo <= counts.Keys
      invariant rest == map k | k in counts && (k in todo || k.window >= w - 1) :: counts[k]
      decreases todo
    {
      var k := Pick(todo);
      if k.window < w - 1 {
        rest := rest - {k};
      }
      todo := todo - {k};
    }
  }

  // ----- what a caller gets -----

  /** Every reading lags the newest one before it by at most one window. */
  predicate Lagging(log: seq<Call>) {
    forall i :: 0 <= i < |log| ==> Live(log[..i], log[i].k.window)
  }

  lemma LaggingPrefix(log: seq<Call>, limit: int, n: nat)
    requires n <= |log| && Lagging(log) && Exact(log, limit)
    ensures Lagging(log[..n]) && Exact(log[..n], limit)
  {
    assert forall i :: 0 <= i < n ==> log[..n][i] == log[i] && log[..n][..i] == log[..i];
  }

  /** No window admits more than `limit` calls of a key. */
  lemma {:induction false} WindowIsBounded(log: seq<Call>, limit: int, k: RateKey)
    requires Exact(log, limit) && Lagging(log) && limit > 0
    ensures Admitted(log, k) <= limit
  {
    if log != [] {
      var n := |log| - 1;
      LaggingPrefix(log, limit, n);
      WindowIsBounded(log[..n], limit, k);
      assert Live(log[..n], log[n].k.window);
    }
  }

  /** The admitted calls of a key whose clock readings lie in [from, from + span). */
  function AdmittedBetween(log: seq<Call>, key: string, from: int, span: int): nat {
    if log == [] then 0
    else
      var c := log[|log| - 1];
      AdmittedBetween(log[..|log| - 1], key, from, span) +
      if c.k.key == key && c.ok && from <= c.now < from + span then 1 else 0
  }

  predicate Monotone(log: seq<Call>) {
    forall i, j :: 0 <= i <= j < |log| ==> 0 <= log[i].now <= log[j].now
  }

  lemma Scaled(window: int, x: int, y: int, n: int)
    requires window > 0 && x + n <= y
    ensures window * x + window * n <= window * y
  {
    var d := y - x - n;
    assert window * y == window * x + window * n + window * d;
    assert window * d >= 0;
  }

  lemma QuotientIsMonotone(a: int, b: int, window: int)
    requires 0 <= a <= b && window > 0
    ensures 0 <= Quotient(a, window) <= Quotient(b, window)
    ensures b < a + window ==> Quotient(b, window) <= Quotient(a, window) + 1
  {
    var qa, qb := a / window, b / window;
    assert a == window * qa + a % window && b == window * qb + b % window;
    if qb < qa {
      Scaled(window, qb, qa, 1);
    } else if qb > qa + 1 {
      Scaled(window, qa, qb, 2);
    }
    if qa < 0 {
      Scaled(window, qa, 0, 1);
    }
  }

  /** A clock that never goes back does not lag. */
  lemma MonotoneIsLagging(log: seq<Call>, window: int)
    requires window > 0 && Monotone(log) && Timed(log, window)
    ensures Lagging(log)
  {
    forall i, j | 0 <= j < i < |log| ensures log[i].k.window >= log[j].k.window - 1 {
      QuotientIsMonotone(log[j].now, log[i].now, window);
    }
  }

  lemma {:induction false} SpanMeetsTwoWindows(log: seq<Call>, window: int, key: string, from: int)
    requires window > 0 && Timed(log, window) && from >= 0
    ensures var w := Quotient(from, window);
            AdmittedBetween(log, key, from, window) <= Admitted(log, RateKey(key, w)) + Admitted(log, RateKey(key, w + 1))
  {
    if log != [] {
      var n := |log| - 1;
      assert Timed(log[..n], window);
      SpanMeetsTwoWindows(log[..n], window, key, from);
      if from <= log[n].now < from + window {
        QuotientIsMonotone(from, log[n].now, window);
        assert log[n].k == RateKey(log[n].k.key, Quotient(log[n].now, window));
      }
    }
  }

  /** Any stretch of one window length admits at most twice the limit, as long as the clock goes
      back by no more than one window. */
  lemma SlidingSpanIsBounded(log: seq<Call>, limit: int, window: int, key: string, from: int)
    requires window > 0 && limit > 0 && Exact(log, limit) && Lagging(log) && Timed(log, window) && from >= 0
    ensures AdmittedBetween(log, key, from, window) <= 2 * limit
  {
    var w := Quotient(from, window);
    SpanMeetsTwoWindows(log, window, key, from);
    WindowIsBounded(log, limit, RateKey(key, w));
    WindowIsBounded(log, limit, RateKey(key, w + 1));
  }

  // ----- the quota in terms of the clock -----

  /** The windows are the stretches [0, window), [window, 2 * window) and so on. */
  lemma SameWindowIff(a: int, b: int, window: int)
    requires a >= 0 && b >= 0 && window > 0
    ensures 0 <= a % window < window && a - a % window >= 0
    ensures Quotient(a, window) == Quotient(b, window) <==> a - a % window <= b < a - a % window + window
  {
    var qa, qb := a / window, b / window;
    assert a == window * qa + a % window && b == window * qb + b % window;
    QuotientIsMonotone(0, a, window);
    Scaled(window, 0, qa, 0);
    if qa < qb {
      Scaled(window, qa, qb, 1);
    } else if qb < qa {
      Scaled(window, qb, qa, 1);
    }
  }

  predicate FromEpoch(log: seq<Call>) {
    forall i :: 0 <= i < |log| ==> log[i].now >= 0
  }

  /** What a counter has admitted is what was admitted between the ends of its window. */
  lemma {:induction false} AdmittedByClock(log: seq<Call>, window: int, key: string, now: int)
    requires window > 0 && now >= 0 && Timed(log, window) && FromEpoch(log)
    ensures Admitted(log, RateKey(key, Quotient(now, window))) == AdmittedBetween(log, key, now - now % window, window)
  {
    if log != [] {
      var n := |log| - 1;
      assert Timed(log[..n], window) && FromEpoch(log[..n]);
      AdmittedByClock(log[..n], window, key, now);
      SameWindowIff(now, log[n].now, window);
      assert log[n].k == RateKey(log[n].k.key, Quotient(log[n].now, window));
      hide Quotient, Timed, FromEpoch;
    }
  }

  /** A call is admitted exactly when fewer than `limit` calls of its key were admitted before it in
      the window of the clock that it falls into. */
  lemma AdmittedIff(log: seq<Call>, limit: int, window: int, i: nat)
    requires window > 0 && limit > 0 && Exact(log, limit) && Lagging(log) && Timed(log, window) && FromEpoch(log)
    requires i < |log|
    ensures var c := log[i];
            c.ok <==> AdmittedBetween(log[..i], c.k.key, c.now - c.now % window, window) < limit
  {
    assert Live(log[..i], log[i].k.window);
    assert Timed(log[..i], window) && FromEpoch(log[..i]);
    AdmittedByClock(log[..i], window, log[i].k.key, log[i].now);
    assert log[i].k == RateKey(log[i].k.key, Quotient(log[i].now, window));
    hide Quotient, Lagging, Live;
  }

  lemma {:induction false} NobodyAdmitted(log: seq<Call>, key: string, from: int, span: int)
    requires forall j :: 0 <= j < |log| && log[j].k.key == key ==> !(from <= log[j].now < from + span)
    ensures AdmittedBetween(log, key, from, span) == 0
  {
    if log != [] {
      NobodyAdmitted(log[..|log| - 1], key, from, span);
    }
  }

  /** The quota comes back: a call is admitted when its key has not called in the last `window`
      seconds before it, nor at a reading less than a window ahead of it. */
  lemma QuotaComesBack(log: seq<Call>, limit: int, window: int, i: nat)
    requires window > 0 && limit > 0 && Exact(log, limit) && Lagging(log) && Timed(log, window) && FromEpoch(log)
    requires i < |log|
    requires forall j :: 0 <= j < i && log[j].k.key == log[i].k.key ==>
               log[j].now <= log[i].now - window || log[i].now + window <= log[j].now
    ensures log[i].ok
  {
    var c := log[i];
    SameWindowIff(c.now, c.now, window);
    NobodyAdmitted(log[..i], c.k.key, c.now - c.now % window, window);
    AdmittedIff(log, limit, window, i);
  }

  // ----- the bound is reached -----

  function Burst(n: nat, c: Call): seq<Call> {
    seq(n, _ => c)
  }

  lemma BurstGrows(log: seq<Call>, n: nat, c: Call)
    requires n > 0
    ensures log + Burst(n, c) == log + Burst(n - 1, c) + [c]
  {
    assert Burst(n, c) == Burst(n - 1, c) + [c];
  }

  lemma OneMoreCounts(log: seq<Call>, c: Call, from: int, span: int, k: RateKey)
    requires c.ok
    ensures Admitted(log + [c], k) == Admitted(log, k) + if c.k == k then 1 else 0
    ensures AdmittedBetween(log + [c], k.key, from, span) ==
            AdmittedBetween(log, k.key, from, span) + if c.k.key == k.key && from <= c.now < from + span then 1 else 0
  {
    assert (log + [c])[..|log|] == log;
  }

  lemma {:induction false} BurstCounts(log: seq<Call>, n: nat, c: Call, from: int, span: int, k: RateKey)
    requires c.ok
    ensures Admitted(log + Burst(n, c), k) == Admitted(log, k) + if c.k == k then n else 0
    ensures AdmittedBetween(log + Burst(n, c), k.key, from, span) ==
            AdmittedBetween(log, k.key, from, span) + if c.k.key == k.key && from <= c.now < from + span then n else 0
  {
    if n == 0 {
      assert log + Burst(n, c) == log;
    } else {
      BurstGrows(log, n, c);
      hide *;
      BurstCounts(log, n - 1, c, from, span, k);
      OneMoreCounts(log + Burst(n - 1, c), c, from, span, k);
    }
  }

  lemma {:induction false} BurstIsExact(log: seq<Call>, n: nat, c: Call, limit: int)
    requires Exact(log, limit) && c.ok && Admitted(log, c.k) + n <= limit
    ensures Exact(log + Burst(n, c), limit)
  {
    if n == 0 {
      assert log + Burst(n, c) == log;
    } else {
      BurstGrows(log, n, c);
      hide *;
      BurstIsExact(log, n - 1, c, limit);
      BurstCounts(log, n - 1, c, 0, 0, c.k);
      CallIsExact(log + Burst(n - 1, c), c, limit);
    }
  }

  lemma EmptyLog(log: seq<Call>, limit: int, k: RateKey, from: int, span: int)
    requires log == []
    ensures Exact(log, limit) && Admitted(log, k) == 0 && AdmittedBetween(log, k.key, from, span) == 0
  {
  }

  lemma BurstsAreTimed(n: nat, window: int, key: string)
    requires window >= 2
    ensures var log := Burst(n, Call(window - 1, RateKey(key, 0), true)) + Burst(n, Call(window, RateKey(key, 1), true));
            Monotone(log) && Timed(log, window)
  {
    assert (window - 1) / window == 0 && window / window == 1;
  }

  /** `limit` calls in the last second of one window and `limit` in the first of the next are all
      admitted, so no smaller bound holds. */
  lemma TwiceTheLimitIsReached(limit: nat, window: int, key: string) returns (log: seq<Call>)
    requires window >= 2 && limit > 0
    ensures Exact(log, limit) && Monotone(log) && Timed(log, window)
    ensures AdmittedBetween(log, key, window - 1, window) == 2 * limit
  {
    hide *;
    var a, b := Call(window - 1, RateKey(key, 0), true), Call(window, RateKey(key, 1), true);
    var empty: seq<Call> := [];
    EmptyLog(empty, limit, a.k, window - 1, window);
    EmptyLog(empty, limit, b.k, window - 1, window);
    BurstIsExact(empty, limit, a, limit);
    BurstCounts(empty, limit, a, window - 1, window, b.k);
    BurstIsExact(empty + Burst(limit, a), limit, b, limit);
    BurstCounts(empty + Burst(limit, a), limit, b, window - 1, window, b.k);
    BurstsAreTimed(limit, window, key);
    assert empty + Burst(limit, a) == Burst(limit, a);
    log := Burst(limit, a) + Burst(limit, b);
  }
}
