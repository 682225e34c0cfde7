/**
 * The fixed-window counter used four times in the repository: per IP (src/network/ipRateLimiter.js),
 * per IP for strikes (src/network/ipBlacklist.js), per session (`_msgAllow` in
 * src/session/secureConnection.js) and per socket (src/network/tcpServer.js). Times are integer
 * milliseconds of a clock that never goes back.
 */
module FixedWindow {
  import opened Arithmetic
  import opened Bytes

  datatype Counter = Counter(count: nat, windowStart: int)

  /** The counter is absent, or its window is over: the next event opens a new one. */
  predicate Expired(c: Option<Counter>, now: int, window: int) {
    c.None? || now - c.value.windowStart > window
  }

  /** Counts one event at `now`. */
  function Bump(c: Option<Counter>, now: int, window: int): Counter {
    if Expired(c, now, window) then Counter(1, now)
    else Counter(c.value.count + 1, c.value.windowStart)
  }

  ghost predicate Sorted(times: seq<int>) {
    forall i, j :: 0 <= i <= j < |times| ==> times[i] <= times[j]
  }

  /** The answers of a rate limiter to calls at the given times. */
  function Run(c: Option<Counter>, times: seq<int>, limit: nat, window: nat): (r: seq<bool>)
    ensures |r| == |times|
    decreases |times|
  {
    if times == [] then []
    else
      var c' := Bump(c, times[0], window);
      [c'.count <= limit] + Run(Some(c'), times[1..], limit, window)
  }

  /** The counter those calls leave behind. */
  function After(c: Option<Counter>, times: seq<int>, window: nat): Option<Counter>
    decreases |times|
  {
    if times == [] then c else After(Some(Bump(c, times[0], window)), times[1..], window)
  }

  lemma {:induction false} RunSplit(c: Option<Counter>, a: seq<int>, b: seq<int>, limit: nat, window: nat)
    ensures Run(c, a + b, limit, window) == Run(c, a, limit, window) + Run(After(c, a, window), b, limit, window)
    decreases |a|
  {
    if a == [] {
      assert a + b == b;
    } else {
      CutFront(a, b, 1);
      RunSplit(Some(Bump(c, a[0], window)), a[1..], b, limit, window);
    }
  }

  lemma {:induction false} AfterSplit(c: Option<Counter>, a: seq<int>, b: seq<int>, window: nat)
    ensures After(c, a + b, window) == After(After(c, a, window), b, window)
    decreases |a|
  {
    if a == [] {
      assert a + b == b;
    } else {
      CutFront(a, b, 1);
      AfterSplit(Some(Bump(c, a[0], window)), a[1..], b, window);
    }
  }

  lemma RunSlice(c: Option<Counter>, times: seq<int>, limit: nat, window: nat, i: nat, j: nat)
    requires i <= j <= |times|
    ensures Run(c, times, limit, window)[i..j] == Run(After(c, times[..i], window), times[i..j], limit, window)
  {
    var a, b, d := times[..i], times[i..j], times[j..];
    var c1 := After(c, a, window);
    CutThree(times, i, j);
    RunSplit(c, a, b + d, limit, window);
    RunSplit(c1, b, d, limit, window);
    Middle(Run(c, a, limit, window), Run(c1, b, limit, window), Run(After(c1, b, window), d, limit, window));
  }

  /** How many calls were let through. */
  function Count(r: seq<bool>): nat {
    if r == [] then 0 else (if r[0] then 1 else 0) + Count(r[1..])
  }

  /** What the current window still lets through. */
  function Left(c: Option<Counter>, limit: nat): nat {
    if c.None? then limit else if c.value.count <= limit then limit - c.value.count else 0
  }

  /** Calls that all fall in the current window share its remaining quota. */
  lemma {:induction false} OneWindow(c: Counter, times: seq<int>, limit: nat, window: nat)
    requires forall i :: 0 <= i < |times| ==> times[i] - c.windowStart <= window
    ensures Count(Run(Some(c), times, limit, window)) <= Left(Some(c), limit)
    decreases |times|
  {
    if times != [] {
      OneWindow(Bump(Some(c), times[0], window), times[1..], limit, window);
    }
  }

  /** Within any span of one window length at most one new window opens. */
  lemma {:induction false} TwoWindows(c: Option<Counter>, times: seq<int>, limit: nat, window: nat)
    requires Sorted(times)
    requires times != [] ==> times[|times| - 1] - times[0] <= window
    ensures c.None? ==> Count(Run(c, times, limit, window)) <= limit
    ensures c.Some? ==> Count(Run(c, times, limit, window)) <= Left(c, limit) + limit
    decreases |times|
  {
    if times != [] {
      var c' := Bump(c, times[0], window);
      if Expired(c, times[0], window) {
        OneWindow(c', times[1..], limit, window);
      } else {
        TwoWindows(Some(c'), times[1..], limit, window);
      }
    }
  }

  /** A counter that has been used has counted at least one event. */
  ghost predicate Used(c: Option<Counter>) {
    c.Some? ==> c.value.count >= 1
  }

  lemma {:induction false} AfterUsed(c: Option<Counter>, times: seq<int>, window: nat)
    ensures Used(c) || times != [] ==> Used(After(c, times, window))
    decreases |times|
  {
    if times != [] {
      AfterUsed(Some(Bump(c, times[0], window)), times[1..], window);
    }
  }

  /**
   * Burst bound. Among the calls of a run that fall in a closed interval of one window length, at
   * most `2 * limit` are let through, and at most `2 * limit - 1` when the counter is only ever
   * created by a call (as the per-IP limiter does).
   */
  lemma BurstBound(c: Option<Counter>, times: seq<int>, limit: nat, window: nat, i: nat, j: nat)
    requires Sorted(times) && i < j <= |times|
    requires times[j - 1] - times[i] <= window
    ensures Count(Run(c, times, limit, window)[i..j]) <= 2 * limit
    ensures Used(c) && limit >= 1 ==> Count(Run(c, times, limit, window)[i..j]) <= 2 * limit - 1
  {
    var c1 := After(c, times[..i], window);
    RunSlice(c, times, limit, window, i, j);
    TwoWindows(c1, times[i..j], limit, window);
    if Used(c) {
      AfterUsed(c, times[..i], window);
    }
  }

  /** `n` calls at one moment. */
  function Repeat(n: nat, now: int): (r: seq<int>)
    ensures |r| == n && forall i :: 0 <= i < n ==> r[i] == now
  {
    seq(n, _ => now)
  }

  function Yes(n: nat): (r: seq<bool>)
    ensures |r| == n && forall i :: 0 <= i < n ==> r[i]
  {
    seq(n, _ => true)
  }

  lemma {:induction false} CountYes(n: nat)
    ensures Count(Yes(n)) == n
  {
    if n > 0 {
      assert Yes(n)[1..] == Yes(n - 1);
      CountYes(n - 1);
    }
  }

  /** Calls that an open window still has room for pass, and only raise its count. */
  lemma {:induction false} RepeatPasses(c: Counter, n: nat, now: int, limit: nat, window: nat)
    requires now - c.windowStart <= window && c.count + n <= limit
    ensures Run(Some(c), Repeat(n, now), limit, window) == Yes(n)
    ensures After(Some(c), Repeat(n, now), window) == Some(Counter(c.count + n, c.windowStart))
    decreases n
  {
    if n > 0 {
      assert Repeat(n, now)[1..] == Repeat(n - 1, now);
      RepeatPasses(Counter(c.count + 1, c.windowStart), n - 1, now, limit, window);
      assert [true] + Yes(n - 1) == Yes(n);
    }
  }

  /** `n` calls at the end of an open window and `limit` more, 1 ms later, in the next one. */
  function Straddle(n: nat, limit: nat, window: nat): seq<int> {
    Repeat(n, window) + Repeat(limit, window + 1)
  }

  lemma StraddlePasses(c: Counter, n: nat, limit: nat, window: nat)
    requires c.windowStart == 0 && c.count + n <= limit && limit >= 1
    ensures Run(Some(c), Straddle(n, limit, window), limit, window) == Yes(n + limit)
  {
    var c1 := Counter(c.count + n, 0);
    RunSplit(Some(c), Repeat(n, window), Repeat(limit, window + 1), limit, window);
    RepeatPasses(c, n, window, limit, window);
    assert Repeat(limit, window + 1)[1..] == Repeat(limit - 1, window + 1);
    RepeatPasses(Counter(1, window + 1), limit - 1, window + 1, limit, window);
    assert [true] + Yes(limit - 1) == Yes(limit) && Yes(n) + Yes(limit) == Yes(n + limit);
  }

  /**
   * Both bounds are reached for every limit and every window of at least 1: `2 * limit` calls within a
   * millisecond all pass on a counter created before them, and `2 * limit - 1` on one that a call created.
   */
  lemma BurstBoundTight(limit: nat, window: nat)
    requires limit >= 1
    ensures Count(Run(Some(Counter(0, 0)), Straddle(limit, limit, window), limit, window)) == 2 * limit
    ensures var times := [0] + Straddle(limit - 1, limit, window);
            && Sorted(times) && times[|times| - 1] - times[1] <= 1
            && Count(Run(None, times, limit, window)[1..]) == 2 * limit - 1
  {
    StraddlePasses(Counter(0, 0), limit, limit, window);
    StraddlePasses(Counter(1, 0), limit - 1, limit, window);
    assert ([0] + Straddle(limit - 1, limit, window))[1..] == Straddle(limit - 1, limit, window);
    CountYes(2 * limit);
    CountYes(2 * limit - 1);
  }

  /** A window of 0 ms holds a single moment, in which at most `limit` calls pass. */
  lemma {:induction false} ZeroWindow(c: Option<Counter>, times: seq<int>, limit: nat, now: int)
    requires forall i :: 0 <= i < |times| ==> times[i] == now
    requires c.Some? ==> c.value.windowStart <= now
    ensures Count(Run(c, times, limit, 0)) <= limit
    decreases |times|
  {
    if times != [] {
      OneWindow(Bump(c, now, 0), times[1..], limit, 0);
    }
  }

  /** `limit` times one more than the number of whole windows in `[from, to]`. */
  function Quota(limit: nat, window: nat, span: nat): nat {
    limit * (span / (window + 1) + 1)
  }

  /** A step past the end of the current window uses up at least one whole window of the span. */
  lemma QuotaStep(limit: nat, window: nat, span: nat, step: nat)
    requires window + 1 <= step <= span
    ensures limit + Quota(limit, window, span - step) <= Quota(limit, window, span)
  {
    var w := window + 1;
    var p, q := (span - step) / w, span / w;
    QuotientBounds(span, w);
    QuotientBounds(span - step, w);
    assert (p + 1) * w == p * w + w;
    QuotientOrder(span - step + w, span, w, p + 1, q);
    MulMonotone(p + 2, q + 1, limit);
    assert limit * (p + 1) + limit == (p + 2) * limit;
  }

  lemma {:induction false} LongRunFrom(c: Counter, times: seq<int>, limit: nat, window: nat, to: int)
    requires Sorted(times)
    requires forall i :: 0 <= i < |times| ==> c.windowStart <= times[i] <= to
    requires c.windowStart <= to
    ensures Count(Run(Some(c), times, limit, window)) + limit
         <= Left(Some(c), limit) + Quota(limit, window, to - c.windowStart)
    decreases |times|
  {
    var span := to - c.windowStart;
    assert limit * (span / (window + 1) + 1) >= limit * 1;
    if times != [] {
      var t := times[0];
      var c' := Bump(Some(c), t, window);
      LongRunFrom(c', times[1..], limit, window, to);
      if Expired(Some(c), t, window) {
        QuotaStep(limit, window, span, t - c.windowStart);
      }
    }
  }

  /**
   * Long-run bound. A run of calls that starts on a fresh counter and spans `T` ms lets through at
   * most `limit * (T / (window + 1) + 1)` of them.
   */
  lemma LongRunBound(times: seq<int>, limit: nat, window: nat)
    requires Sorted(times) && times != []
    ensures Count(Run(None, times, limit, window)) <= Quota(limit, window, times[|times| - 1] - times[0])
  {
    var c := Bump(None, times[0], window);
    LongRunFrom(c, times[1..], limit, window, times[|times| - 1]);
  }
}
