/**
 The fixed-window rate limiter of one process, and its bound over whole runs.

 Times are seconds of the monotonic clock.  The clock is read before the lock is taken, so
 calls need not reach the state in the order of their clock values.
 */
module RateLimiter {
  const WINDOW: real := 60.0

  /** When the current window started and how many calls it has seen. */
  datatype Window = Window(started: real, count: int)

  function Consume(limit: int, w: Window, now: real): (Window, bool) {
    var current := if now - w.started >= WINDOW then Window(now, 0) else w;
    var next := current.(count := current.count + 1);
    (next, next.count <= limit)
  }

  // ---------------------------------------------------------------- one bucket over a run

  /** The window after calls made at the given clock values. */
  function After(limit: int, start: Window, times: seq<real>): Window {
    if times == [] then start
    else Consume(limit, After(limit, start, times[..|times| - 1]), times[|times| - 1]).0
  }

  predicate Succeeds(limit: int, start: Window, times: seq<real>, k: nat)
    requires k < |times|
  {
    Consume(limit, After(limit, start, times[..k]), times[k]).1
  }

  /** How many calls stamped within 60 seconds from `t` on succeeded. */
  function Successes(limit: int, start: Window, times: seq<real>, t: real): nat {
    if times == [] then 0
    else
      var n := |times| - 1;
      Successes(limit, start, times[..n], t) +
      if t <= times[n] < t + 60.0 && Consume(limit, After(limit, start, times[..n]), times[n]).1 then 1 else 0
  }

  predicate Ordered(first: real, times: seq<real>) {
    && (forall i | 0 <= i < |times| :: first <= times[i])
    && (forall i, j | 0 <= i < j < |times| :: times[i] <= times[j])
  }

  function Latest(first: real, times: seq<real>): real {
    if times == [] then first else times[|times| - 1]
  }

  function Min(a: int, b: int): int {
    if a <= b then a else b
  }

  /** The newest clock value so far, the construction of the limiter included. */
  function Newest(first: real, times: seq<real>): real {
    if times == [] then first
    else
      var earlier := Newest(first, times[..|times| - 1]);
      var now := times[|times| - 1];
      if now >= earlier then now else earlier
  }

  /** Every clock value is at most `d` behind the newest one that reached the state before it. */
  predicate Lagging(first: real, times: seq<real>, d: real) {
    times == [] ||
    (Lagging(first, times[..|times| - 1], d) && times[|times| - 1] >= Newest(first, times[..|times| - 1]) - d)
  }

  /** `d` in minutes, rounded up: how many windows can open while stale values still reach back into a minute. */
  function Late(d: real): nat
    requires d >= 0.0
  {
    var n := -((-d / 60.0).Floor);
    n
  }

  lemma LateMeans(d: real)
    requires d >= 0.0
    ensures 60.0 * (Late(d) as real - 1.0) < d <= 60.0 * Late(d) as real
    ensures Late(d) == 0 <==> d == 0.0
  {
  }

  /** The most that can pass within 60 seconds when no clock value lags by more than `d`. */
  function MostPassed(limit: nat, d: real): nat
    requires d >= 0.0
  {
    if limit == 0 then 0 else 2 * limit + Late(d) * (limit - 1)
  }

  /** How many late windows can have opened before one that started at `started`. */
  function Before(started: real, t: real): int {
    ((started - t - 60.0) / 60.0).Floor
  }

  /**
   What relates the window to the number of successes `n` stamped within the minute from `t`.
   The call that opens a late window is itself stamped after the minute, so such a window leaves
   one place less for stale ones.
   */
  predicate Account(limit: nat, w: Window, newest: real, t: real, d: real, n: int)
    requires d >= 0.0
  {
    && w.count >= 0
    && w.started <= newest < w.started + 60.0
    && (w.started + 60.0 <= t ==> n == 0)
    && (w.started < t ==> n <= Min(w.count, limit))
    && (t <= w.started < t + 60.0 ==> n <= limit + Min(w.count, limit))
    && (t + 60.0 <= w.started < t + 60.0 + d ==>
          n <= 2 * limit + Before(w.started, t) * (limit - 1) + Min(w.count, limit) - 1)
    && n <= MostPassed(limit, d)
  }

  lemma Monotone(a: int, b: int, c: nat)
    requires a <= b
    ensures a * c <= b * c
  {
  }

  lemma BeforeLate(started: real, t: real, d: real)
    requires d >= 0.0 && t + 60.0 <= started < t + 60.0 + d
    ensures 0 <= Before(started, t) && Before(started, t) + 1 <= Late(d)
  {
    LateMeans(d);
    assert Before(started, t) as real * 60.0 < 60.0 * Late(d) as real;
  }

  lemma BeforeLater(earlier: real, started: real, t: real)
    requires earlier + 60.0 <= started
    ensures Before(earlier, t) + 1 <= Before(started, t)
  {
    assert (earlier - t - 60.0) / 60.0 + 1.0 == (earlier - t) / 60.0;
  }

  /** A call in the window that is open. */
  lemma StayKeepsAccount(limit: nat, w: Window, newest: real, now: real, t: real, d: real, n: nat)
    requires d >= 0.0 && limit >= 1 && Account(limit, w, newest, t, d, n) && now >= newest - d
    requires now - w.started < 60.0
    ensures var passed := w.count + 1 <= limit;
            Account(limit, w.(count := w.count + 1), if now >= newest then now else newest, t, d,
                    n + if t <= now < t + 60.0 && passed then 1 else 0)
  {
    hide Before, Late;
    Monotone(0, Late(d), limit - 1);
    if t + 60.0 <= w.started < t + 60.0 + d {
      BeforeLate(w.started, t, d);
      Monotone(Before(w.started, t) + 1, Late(d), limit - 1);
    }
  }

  /** A call that opens a window. */
  lemma ResetKeepsAccount(limit: nat, w: Window, newest: real, now: real, t: real, d: real, n: nat)
    requires d >= 0.0 && limit >= 1 && Account(limit, w, newest, t, d, n) && now - w.started >= 60.0
    ensures Account(limit, Window(now, 1), now, t, d, n + if t <= now < t + 60.0 then 1 else 0)
  {
    hide Before, Late;
    Monotone(0, Late(d), limit - 1);
    if t + 60.0 <= now < t + 60.0 + d {
      BeforeLate(now, t, d);
      Monotone(0, Before(now, t), limit - 1);
      if t + 60.0 <= w.started {
        BeforeLater(w.started, now, t);
        Monotone(Before(w.started, t) + 1, Before(now, t), limit - 1);
      }
    }
  }

  lemma ConsumeKeepsAccount(limit: nat, w: Window, newest: real, now: real, t: real, d: real, n: nat)
    requires d >= 0.0 && limit >= 1 && Account(limit, w, newest, t, d, n) && now >= newest - d
    ensures var (w', ok) := Consume(limit, w, now);
            Account(limit, w', if now >= newest then now else newest, t, d, n + if t <= now < t + 60.0
                    && ok then 1 else 0)
  {
    if now - w.started >= 60.0 {
      ResetKeepsAccount(limit, w, newest, now, t, d, n);
      assert newest < now;
    } else {
      StayKeepsAccount(limit, w, newest, now, t, d, n);
    }
    hide Account;
  }

  lemma {:induction false} RunKeepsAccount(limit: nat, begun: real, times: seq<real>, t: real, d: real)
    requires d >= 0.0 && limit >= 1 && Lagging(begun, times, d)
    ensures Account(limit, After(limit, Window(begun, 0), times), Newest(begun, times), t, d,
                    Successes(limit, Window(begun, 0), times, t))
    decreases |times|
  {
    hide Account;
    if times != [] {
      var n := |times| - 1;
      RunKeepsAccount(limit, begun, times[..n], t, d);
      ConsumeKeepsAccount(limit, After(limit, Window(begun, 0), times[..n]), Newest(begun, times[..n]), times[n], t, d,
                          Successes(limit, Window(begun, 0), times[..n], t));
    } else {
      NothingPassed(limit, begun, t, d);
    }
  }

  lemma NothingPassed(limit: nat, begun: real, t: real, d: real)
    requires d >= 0.0 && limit >= 1
    ensures Account(limit, Window(begun, 0), begun, t, d, 0)
  {
    hide Before, Late;
    Monotone(0, Late(d), limit - 1);
    if t + 60.0 <= begun < t + 60.0 + d {
      BeforeLate(begun, t, d);
      Monotone(0, Before(begun, t), limit - 1);
    }
  }

  lemma {:induction false} NoLimitNoPass(start: Window, times: seq<real>, t: real)
    requires start.count >= 0
    ensures After(0, start, times).count >= 0 && Successes(0, start, times, t) == 0
    decreases |times|
  {
    if times != [] {
      NoLimitNoPass(start, times[..|times| - 1], t);
    }
  }

  /**
   Over runs of any length: if no clock value lags more than `d` behind the newest before it, then
   of the calls stamped within any half-open 60 seconds at most twice the limit pass, and one less
   than the limit more for every minute, or part of one, in `d`.
   */
  lemma LaggingRateBound(limit: nat, begun: real, times: seq<real>, t: real, d: real)
    requires d >= 0.0 && Lagging(begun, times, d)
    ensures Successes(limit, Window(begun, 0), times, t) <= MostPassed(limit, d)
  {
    if limit == 0 {
      NoLimitNoPass(Window(begun, 0), times, t);
    } else {
      RunKeepsAccount(limit, begun, times, t, d);
    }
  }

  lemma {:induction false} OrderedIsLagging(first: real, times: seq<real>)
    requires Ordered(first, times)
    ensures Lagging(first, times, 0.0) && Newest(first, times) == Latest(first, times)
    decreases |times|
  {
    if times != [] {
      OrderedIsLagging(first, times[..|times| - 1]);
    }
  }

  /** With a clock that never goes back, no 60 seconds hold more than twice the limit. */
  lemma RateBound(limit: nat, begun: real, times: seq<real>, t: real)
    requires Ordered(begun, times)
    ensures Successes(limit, Window(begun, 0), times, t) <= 2 * limit
  {
    OrderedIsLagging(begun, times);
    LaggingRateBound(limit, begun, times, t, 0.0);
    LateMeans(0.0);
  }

  // ---------------------------------------------------------------- one window

  /** The position of the call that opened the current window; 0 while the first window lasts. */
  function Opening(limit: int, start: Window, times: seq<real>): (k: nat)
    ensures k <= |times|
  {
    if times == [] then 0
    else
      var n := |times| - 1;
      if times[n] - After(limit, start, times[..n]).started >= 60.0 then n else Opening(limit, start, times[..n])
  }

  function CountFrom(limit: int, start: Window, times: seq<real>, k: nat): nat {
    if |times| <= k then 0
    else
      var n := |times| - 1;
      CountFrom(limit, start, times[..n], k) + if Consume(limit, After(limit, start, times[..n]), times[n]).1 then 1
      else 0
  }

  /** Whatever the clock does, a window lets through the first `limit` of its calls and no other. */
  lemma {:induction false} WindowBound(limit: nat, begun: real, times: seq<real>)
    ensures var start := Window(begun, 0);
            var k := Opening(limit, start, times);
            && After(limit, start, times).count == |times| - k
            && CountFrom(limit, start, times, k) == Min(|times| - k, limit)
    decreases |times|
  {
    if times != [] {
      WindowBound(limit, begun, times[..|times| - 1]);
    }
  }

  /** A call moves the window only when 60 seconds have passed since it started, whether or not it is let through. */
  lemma RejectedCallsDoNotExtend(limit: int, w: Window, now: real)
    ensures var (w', ok) := Consume(limit, w, now);
            && (w'.started != w.started ==> now - w.started >= 60.0 && w'.started == now)
            && (now - w.started >= 60.0 && limit >= 1 ==> ok)
            && (!ok && limit >= 1 ==> w'.started == w.started)
  {
  }

  /** However many calls were refused, the first call 60 seconds after the window started succeeds. */
  lemma {:induction false} WaitingSuffices(limit: int, start: Window, times: seq<real>, now: real)
    requires limit >= 1 && now - start.started >= 60.0
    requires forall i | 0 <= i < |times| :: times[i] - start.started < 60.0
    ensures After(limit, start, times).started == start.started
    ensures Succeeds(limit, start, times + [now], |times|)
    decreases |times|
  {
    assert (times + [now])[..|times|] == times;
    if times != [] {
      WaitingSuffices(limit, start, times[..|times| - 1], now);
    }
  }

  // --------------------------------------------------------- the bound is sharp, and the order of clock values matters

  function Copies(t: real, n: nat): (r: seq<real>)
    ensures |r| == n && forall i | 0 <= i < n :: r[i] == t
  {
    if n == 0 then [] else Copies(t, n - 1) + [t]
  }

  /** A run so far: its window, its newest clock value, and the calls of the minute from 0 that passed. */
  predicate At(limit: nat, begun: real, times: seq<real>, d: real, w: Window, newest: real, n: int) {
    && Lagging(begun, times, d)
    && After(limit, Window(begun, 0), times) == w
    && Newest(begun, times) == newest
    && Successes(limit, Window(begun, 0), times, 0.0) == n
  }

  /** One more call at the end of a run. */
  lemma OneMore(limit: nat, begun: real, times: seq<real>, d: real, w: Window, newest: real, n: int, now: real)
    requires At(limit, begun, times, d, w, newest, n) && now >= newest - d
    ensures var (w', ok) := Consume(limit, w, now);
            At(limit, begun, times + [now], d, w', if now >= newest then now else newest, n + if 0.0 <= now < 60.0
               && ok then 1 else 0)
  {
    assert (times + [now])[..|times|] == times;
  }

  /** Equal calls within one window all pass while there is room. */
  lemma {:induction false} Repeat(limit: nat, begun: real, times: seq<real>, d: real, w: Window, newest: real, n: int,
                                  now: real, k: nat)
    requires d >= 0.0 && At(limit, begun, times, d, w, newest, n)
    requires now >= newest - d && now - w.started < 60.0 && 0.0 <= now < 60.0 && w.count + k <= limit
    ensures At(limit, begun, times + Copies(now, k), d, Window(w.started, w.count + k),
               if k > 0 && now >= newest then now else newest, n + k)
    decreases k
  {
    hide At;
    if k == 0 {
      assert times + Copies(now, 0) == times;
    } else {
      Repeat(limit, begun, times, d, w, newest, n, now, k - 1);
      OneMore(limit, begun, times + Copies(now, k - 1), d, Window(w.started, w.count + k - 1),
              if k > 1 && now >= newest then now else newest, n + k - 1, now);
      assert times + Copies(now, k) == times + Copies(now, k - 1) + [now];
    }
  }

  /** How far past a minute boundary the windows of the worst run open. */
  function Offset(d: real): real
    requires d >= 0.0
  {
    if d == 0.0 then 30.0 else (d - 60.0 * (Late(d) as real - 1.0)) / 2.0
  }

  /** The clock value of the stale calls of the worst run. */
  function StaleValue(d: real): real
    requires d >= 0.0
  {
    var last := Offset(d) + 60.0 * Late(d) as real;
    if last > d then last - d else 0.0
  }

  lemma OffsetMeans(d: real)
    requires d >= 0.0
    ensures 0.0 < Offset(d) <= 30.0
    ensures Late(d) > 0 ==>
              0.0 <= StaleValue(d) < 60.0 && StaleValue(d) >= Offset(d) + 60.0 * Late(d) as real - d
                && Offset(d) <= StaleValue(d) + d
  {
    LateMeans(d);
    hide Late;
  }

  /**
   The limit just before a window ends, the limit as the next one opens, and then late windows used
   by stale calls.
   */
  function Worst(limit: nat, d: real, rounds: nat): seq<real>
    requires d >= 0.0 && limit >= 1
  {
    if rounds == 0 then Copies(0.0, limit) + [Offset(d)] + Copies(Offset(d), limit - 1)
    else Worst(limit, d, rounds - 1) + [Offset(d) + 60.0 * rounds as real] + Copies(StaleValue(d), limit - 1)
  }

  lemma BeforeAnyCall(limit: nat, begun: real, d: real)
    ensures At(limit, begun, [], d, Window(begun, 0), begun, 0)
  {
  }

  lemma WorstStarts(limit: nat, d: real)
    requires d >= 0.0 && limit >= 1
    ensures At(limit, Offset(d) - 60.0, Worst(limit, d, 0), d, Window(Offset(d), limit), Offset(d), 2 * limit)
  {
    hide At, Offset, StaleValue, Late, Lagging, After, Newest, Successes, Copies;
    var e := Offset(d);
    var begun := e - 60.0;
    var first := Copies(0.0, limit);
    assert [] + first == first;
    BeforeAnyCall(limit, begun, d);
    OffsetMeans(d);
    Repeat(limit, begun, [], d, Window(begun, 0), begun, 0, 0.0, limit);
    OneMore(limit, begun, first, d, Window(begun, limit), 0.0, limit, e);
    Repeat(limit, begun, first + [e], d, Window(e, 1), e, limit + 1, e, limit - 1);
  }

  lemma OneRoundMore(rounds: nat, places: nat)
    requires rounds > 0
    ensures (rounds - 1) * places + places == rounds * places
  {
  }

  lemma {:induction false} WorstGrows(limit: nat, d: real, rounds: nat)
    requires d >= 0.0 && limit >= 1 && rounds <= Late(d)
    ensures At(limit, Offset(d) - 60.0, Worst(limit, d, rounds), d,
               Window(Offset(d) + 60.0 * rounds as real, limit),
               Offset(d) + 60.0 * rounds as real, 2 * limit + rounds * (limit - 1))
    decreases rounds
  {
    hide At, StaleValue, Offset, Late, Lagging, After, Newest, Successes, Copies;
    if rounds == 0 {
      WorstStarts(limit, d);
    } else {
      WorstGrows(limit, d, rounds - 1);
      OffsetMeans(d);
      var e, y := Offset(d), StaleValue(d);
      var before := Worst(limit, d, rounds - 1);
      var opening, next := e + 60.0 * (rounds - 1) as real, e + 60.0 * rounds as real;
      var n := 2 * limit + (rounds - 1) * (limit - 1);
      assert next == opening + 60.0;
      OneMore(limit, e - 60.0, before, d, Window(opening, limit), opening, n, next);
      Repeat(limit, e - 60.0, before + [next], d, Window(next, 1), next, n, y, limit - 1);
      OneRoundMore(rounds, limit - 1);
    }
  }

  /** The bound is reached for every limit and every lag. */
  lemma BoundIsSharp(limit: nat, d: real)
    requires d >= 0.0 && limit >= 1
    ensures var times := Worst(limit, d, Late(d));
            Lagging(Offset(d) - 60.0, times, d)
            && Successes(limit, Window(Offset(d) - 60.0, 0), times, 0.0) == MostPassed(limit, d)
  {
    WorstGrows(limit, d, Late(d));
    hide Late, Offset, Worst;
  }

  /** Twice the limit holds in every run in which clock values lag by at most `d`. */
  ghost predicate TwiceHolds(limit: nat, d: real) {
    forall begun: real, times: seq<real>, t: real | Lagging(begun, times, d) ::
      Successes(limit, Window(begun, 0), times, t) <= 2 * limit
  }

  /** It does exactly when calls reach the state in the order of their clock values, or the limit is at most one. */
  lemma TwiceTheLimitExactly(limit: nat, d: real)
    requires d >= 0.0
    ensures TwiceHolds(limit, d) <==> d == 0.0 || limit <= 1
  {
    LateMeans(d);
    hide Late, Lagging, Offset, Worst;
    forall begun: real, times: seq<real>, t: real | Lagging(begun, times, d) && (d == 0.0 || limit <= 1)
      ensures Successes(limit, Window(begun, 0), times, t) <= 2 * limit
    {
      LaggingRateBound(limit, begun, times, t, d);
    }
    if d > 0.0 && limit > 1 {
      BoundIsSharp(limit, d);
      Monotone(1, Late(d), limit - 1);
    }
  }

  /** Stale clock values break twice the limit: with a limit of 2, five calls stamped 0 succeed. */
  lemma StaleClockBreaksBound()
    ensures var times := [0.0, 0.0, 60.0, 0.0, 120.0, 0.0, 180.0, 0.0];
            !Ordered(0.0, times) && Successes(2, Window(0.0, 0), times, 0.0) == 5
  {
    var times := [0.0, 0.0, 60.0, 0.0, 120.0, 0.0, 180.0, 0.0];
    var start := Window(0.0, 0);
    assert times[2] > times[3];
    StaleStep(times, 0, start, 0, Window(0.0, 1), 1);
    StaleStep(times, 1, Window(0.0, 1), 1, Window(0.0, 2), 2);
    StaleStep(times, 2, Window(0.0, 2), 2, Window(60.0, 1), 2);
    StaleStep(times, 3, Window(60.0, 1), 2, Window(60.0, 2), 3);
    StaleStep(times, 4, Window(60.0, 2), 3, Window(120.0, 1), 3);
    StaleStep(times, 5, Window(120.0, 1), 3, Window(120.0, 2), 4);
    StaleStep(times, 6, Window(120.0, 2), 4, Window(180.0, 1), 4);
    StaleStep(times, 7, Window(180.0, 1), 4, Window(180.0, 2), 5);
    assert times[..8] == times;
  }

  lemma StaleStep(times: seq<real>, k: nat, w: Window, n: nat, w': Window, n': nat)
    requires k < |times| && After(2, Window(0.0, 0), times[..k]) == w
    requires Successes(2, Window(0.0, 0), times[..k], 0.0) == n
    requires Consume(2, w, times[k]).0 == w'
    requires n' == n + if 0.0 <= times[k] < 60.0 && Consume(2, w, times[k]).1 then 1 else 0
    ensures After(2, Window(0.0, 0), times[..k + 1]) == w' && Successes(2, Window(0.0, 0), times[..k + 1], 0.0) == n'
  {
    assert times[..k + 1][..k] == times[..k];
  }

  // ---------------------------------------------------------------- all buckets

  datatype Answer = Passed | Limited | NoSuchBucket

  function ConsumeBucket(limits: map<string, int>, state: map<string, Window>, bucket: string, now: real): (map<string,
      Window>, Answer) {
    if bucket !in state || bucket !in limits then (state, NoSuchBucket)
    else
      var (w, ok) := Consume(limits[bucket], state[bucket], now);
      (state[bucket := w], if ok then Passed else Limited)
  }

  datatype Request = Request(bucket: string, now: real)

  function StateAfter(limits: map<string, int>, state: map<string, Window>, calls: seq<Request>): map<string, Window> {
    if calls == [] then state
    else
      var n := |calls| - 1;
      ConsumeBucket(limits, StateAfter(limits, state, calls[..n]), calls[n].bucket, calls[n].now).0
  }

  function TimesOf(calls: seq<Request>, bucket: string): seq<real> {
    if calls == [] then []
    else
      var n := |calls| - 1;
      TimesOf(calls[..n], bucket) + if calls[n].bucket == bucket then [calls[n].now] else []
  }

  /** Buckets do not influence each other: each sees exactly the run of its own calls. */
  lemma {:induction false} BucketsIndependent(limits: map<string, int>, state: map<string, Window>, calls: seq<Request>,
                                              bucket: string)
    requires bucket in limits && bucket in state && state.Keys == limits.Keys
    ensures var s := StateAfter(limits, state, calls);
            s.Keys == state.Keys && s[bucket] == After(limits[bucket], state[bucket], TimesOf(calls, bucket))
    decreases |calls|
  {
    if calls != [] {
      var n := |calls| - 1;
      BucketsIndependent(limits, state, calls[..n], bucket);
      var before := TimesOf(calls[..n], bucket);
      if calls[n].bucket == bucket {
        assert (before + [calls[n].now])[..|before|] == before;
      } else {
        assert before + [] == before;
      }
    }
  }

  function PassedWithin(limits: map<string, int>, state: map<string, Window>, calls: seq<Request>, bucket: string,
                        t: real): nat {
    if calls == [] then 0
    else
      var n := |calls| - 1;
      PassedWithin(limits, state, calls[..n], bucket, t) +
      if calls[n].bucket == bucket && t <= calls[n].now < t + 60.0
         && ConsumeBucket(limits, StateAfter(limits, state, calls[..n]), bucket, calls[n].now).1 == Passed then 1 else 0
  }

  lemma {:induction false} PassedIsSuccesses(limits: map<string, int>, state: map<string, Window>, calls: seq<Request>,
                                             bucket: string, t: real)
    requires bucket in limits && bucket in state && state.Keys == limits.Keys
    ensures PassedWithin(limits, state, calls, bucket, t) == Successes(limits[bucket], state[bucket],
                                                                       TimesOf(calls, bucket), t)
    decreases |calls|
  {
    if calls != [] {
      var n := |calls| - 1;
      PassedIsSuccesses(limits, state, calls[..n], bucket, t);
      BucketsIndependent(limits, state, calls[..n], bucket);
      var before := TimesOf(calls[..n], bucket);
      if calls[n].bucket == bucket {
        assert (before + [calls[n].now])[..|before|] == before;
      } else {
        assert before + [] == before;
      }
    }
  }

  /** In any run over all buckets, the bound holds for each bucket by the lag of its own clock values. */
  lemma BucketRateBound(limits: map<string, int>, begun: map<string, real>, calls: seq<Request>, bucket: string,
                        t: real, d: real)
    requires bucket in limits && begun.Keys == limits.Keys && limits[bucket] >= 0
    requires d >= 0.0 && Lagging(begun[bucket], TimesOf(calls, bucket), d)
    ensures PassedWithin(limits, map b | b in begun ::
                Window(begun[b], 0), calls, bucket, t) <= MostPassed(limits[bucket], d)
  {
    var state := map b | b in begun :: Window(begun[b], 0);
    assert state.Keys == limits.Keys;
    PassedIsSuccesses(limits, state, calls, bucket, t);
    LaggingRateBound(limits[bucket], begun[bucket], TimesOf(calls, bucket), t, d);
  }

  class ProcessRateLimiter {
    const limits: map<string, int>
    var state: map<string, Window>

    constructor (authentication: int, mutation: int, first: real, second: real)
      ensures limits == map["authentication" := authentication, "mutation" := mutation]
      ensures state == map["authentication" := Window(first, 0), "mutation" := Window(second, 0)]
    {
      limits := map["authentication" := authentication, "mutation" := mutation];
      state := map["authentication" := Window(first, 0), "mutation" := Window(second, 0)];
    }

    /** The body of the locked section; `now` was read before the lock was taken. */
    method ConsumeNow(bucket: string, now: real) returns (answer: Answer)
      modifies this
      ensures (state, answer) == ConsumeBucket(limits, old(state), bucket, now)
      ensures forall other | other in old(state) && other != bucket ::
                other in state && state[other] == old(state)[other]
    {
      if bucket !in state {
        return NoSuchBucket;
      }
      var started, count := state[bucket].started, state[bucket].count;
      if bucket !in limits {
        return NoSuchBucket;
      }
      if now - started >= WINDOW {
        started, count := now, 0;
      }
      count := count + 1;
      state := state[bucket := Window(started, count)];
      if count > limits[bucket] {
        return Limited;
      }
      return Passed;
    }
  }
}
