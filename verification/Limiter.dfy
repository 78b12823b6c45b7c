/** The fixed-window limiter in front of checkout, over whole histories of calls. */
module Limiter {
  const SECOND: int := 1_000_000_000

  /** `window` is in nanoseconds; 0 is the zero time of a limiter that was never called. */
  datatype State = State(window: int, count: int)

  const FRESH: State := State(0, 0)

  predicate Resets(s: State, now: int) {
    s.window == 0 || now - s.window >= SECOND
  }

  function Call(s: State, limit: int, now: int): (State, bool) {
    var w := if Resets(s, now) then State(now, 0) else s;
    if w.count >= limit then (w, false) else (w.(count := w.count + 1), true)
  }

  class FixedWindowLimiter {
    var window: int
    var count: int
    const limit: int

    function Contents(): State
      reads this
    {
      State(window, count)
    }

    constructor (limit: int)
      ensures this.limit == limit && Contents() == FRESH
    {
      this.limit := limit;
      window, count := 0, 0;
    }

    method Allow(now: int) returns (ok: bool)
      modifies this
      ensures (Contents(), ok) == Call(old(Contents()), limit, now)
    {
      if window == 0 || now - window >= SECOND {
        window := now;
        count := 0;
      }
      if count >= limit {
        return false;
      }
      count := count + 1;
      return true;
    }
  }

  // ---------- histories: the calls made at `times`, in order ----------

  ghost predicate Ordered(times: seq<int>) {
    && (forall k :: 0 <= k < |times| ==> times[k] > 0)
    && (forall j, k :: 0 <= j < k < |times| ==> times[j] <= times[k])
  }

  function After(limit: int, times: seq<int>): State {
    if times == [] then FRESH
    else Call(After(limit, times[..|times| - 1]), limit, times[|times| - 1]).0
  }

  predicate Admits(limit: int, times: seq<int>, k: nat)
    requires k < |times|
  {
    Call(After(limit, times[..k]), limit, times[k]).1
  }

  predicate Begins(limit: int, times: seq<int>, k: nat)
    requires k < |times|
  {
    Resets(After(limit, times[..k]), times[k])
  }

  /** The start of the window that call `k` falls into. */
  function WindowOf(limit: int, times: seq<int>, k: nat): int
    requires k < |times|
  {
    After(limit, times[..k + 1]).window
  }

  /** How many calls were admitted from `from` on and before `until`. */
  function Admitted(limit: int, times: seq<int>, from: int, until: int): nat {
    if times == [] then 0
    else
      var k := |times| - 1;
      Admitted(limit, times[..k], from, until)
      + (if from <= times[k] < until && Admits(limit, times, k) then 1 else 0)
  }

  /** How many calls were admitted in the window that started at `window`. */
  function AdmittedIn(limit: int, times: seq<int>, window: int): nat {
    if times == [] then 0
    else
      var k := |times| - 1;
      AdmittedIn(limit, times[..k], window)
      + (if WindowOf(limit, times, k) == window && Admits(limit, times, k) then 1 else 0)
  }

  lemma {:induction false} WindowCovers(limit: int, times: seq<int>, j: nat)
    requires Ordered(times) && j < |times|
    ensures 0 < After(limit, times).window <= times[|times| - 1] < After(limit, times).window + SECOND
    ensures Begins(limit, times, j) ==> times[j] <= After(limit, times).window
  {
    var front := times[..|times| - 1];
    assert front[..j] == times[..j];
    if j < |front| {
      WindowCovers(limit, front, j);
    } else if front != [] {
      WindowCovers(limit, front, 0);
    }
  }

  /** Two windows start at least one second apart. */
  lemma StartsAreApart(limit: int, times: seq<int>, j: nat, k: nat)
    requires Ordered(times) && j < k < |times| && Begins(limit, times, j) && Begins(limit, times, k)
    ensures times[k] - times[j] >= SECOND
  {
    assert times[..k][..j] == times[..j];
    WindowCovers(limit, times[..k], j);
  }

  lemma {:induction false} CountIsExact(limit: int, times: seq<int>, window: int)
    requires Ordered(times) && limit >= 1
    ensures var s := After(limit, times);
      && 0 <= s.count <= limit && (times != [] ==> s.count >= 1)
      && (window == s.window ==> AdmittedIn(limit, times, window) == s.count)
      && (window > s.window ==> AdmittedIn(limit, times, window) == 0)
      && AdmittedIn(limit, times, window) <= limit
  {
    if times != [] {
      var front := times[..|times| - 1];
      CountIsExact(limit, front, window);
      assert times[..|times|] == times;
      if front != [] {
        WindowCovers(limit, front, 0);
      }
      WindowCovers(limit, times, 0);
    }
  }

  /** Each window admits at most `limit` calls, and a call is refused only when its window is used up. */
  lemma WindowsAreFull(limit: int, times: seq<int>, k: nat, window: int)
    requires Ordered(times) && limit >= 1 && k < |times|
    ensures AdmittedIn(limit, times, window) <= limit
    ensures Admits(limit, times, k) <==> AdmittedIn(limit, times[..k], WindowOf(limit, times, k)) < limit
  {
    CountIsExact(limit, times, window);
    CountIsExact(limit, times[..k], WindowOf(limit, times, k));
    assert times[..k + 1][..k] == times[..k];
    if k > 0 {
      WindowCovers(limit, times[..k], 0);
    }
  }

  lemma {:induction false} IntervalBound(limit: int, times: seq<int>, from: int)
    requires Ordered(times) && limit >= 1
    ensures var admitted, s := Admitted(limit, times, from, from + SECOND), After(limit, times);
      && (times != [] && times[|times| - 1] < from ==> admitted == 0)
      && (times != [] && s.window < from ==> admitted <= s.count - 1)
      && (from <= s.window < from + SECOND ==> admitted <= limit - 1 + s.count)
      && admitted <= 2 * limit - 1
  {
    if times != [] {
      var front := times[..|times| - 1];
      IntervalBound(limit, front, from);
      CountIsExact(limit, front, 0);
      CountIsExact(limit, times, 0);
      if front != [] {
        WindowCovers(limit, front, 0);
      }
      WindowCovers(limit, times, 0);
    }
  }

  /** Every half-open second admits fewer than twice the limit. */
  lemma FewerThanTwice(limit: int, times: seq<int>, from: int)
    requires Ordered(times) && limit >= 1
    ensures Admitted(limit, times, from, from + SECOND) <= 2 * limit - 1
  {
    IntervalBound(limit, times, from);
  }

  // ---------- the bound is reached ----------

  function Burst(now: int, n: nat): seq<int> {
    if n == 0 then [] else Burst(now, n - 1) + [now]
  }

  lemma OneMore(limit: int, times: seq<int>, now: int, from: int)
    ensures var called := Call(After(limit, times), limit, now);
      && After(limit, times + [now]) == called.0
      && Admitted(limit, times + [now], from, from + SECOND) ==
           Admitted(limit, times, from, from + SECOND) + (if from <= now < from + SECOND && called.1 then 1 else 0)
  {
  }

  lemma {:induction false} BurstIsAdmitted(limit: int, times: seq<int>, now: int, n: nat, from: int)
    requires var s := After(limit, times);
      s.window != 0 && 0 <= now - s.window < SECOND && s.count + n <= limit && from <= now < from + SECOND
    ensures var all := times + Burst(now, n);
      && After(limit, all) == State(After(limit, times).window, After(limit, times).count + n)
      && Admitted(limit, all, from, from + SECOND) == Admitted(limit, times, from, from + SECOND) + n
  {
    hide After, Admitted;
    if n == 0 {
      assert times + [] == times;
    } else {
      BurstIsAdmitted(limit, times, now, n - 1, from);
      OneMore(limit, times + Burst(now, n - 1), now, from);
      assert times + Burst(now, n) == times + Burst(now, n - 1) + [now];
    }
  }

  /** One call, the rest of its window at its last moment, and the whole next window. */
  function Worst(limit: nat): seq<int>
    requires limit >= 1
  {
    [1] + Burst(SECOND, limit - 1) + [SECOND + 1] + Burst(SECOND + 1, limit - 1)
  }

  lemma {:induction false} BurstIsConstant(now: int, n: nat)
    ensures |Burst(now, n)| == n && forall k :: 0 <= k < n ==> Burst(now, n)[k] == now
  {
    if n > 0 {
      BurstIsConstant(now, n - 1);
    }
  }

  lemma WorstIsOrdered(limit: nat)
    requires limit >= 1
    ensures Ordered(Worst(limit))
  {
    BurstIsConstant(SECOND, limit - 1);
    BurstIsConstant(SECOND + 1, limit - 1);
  }

  lemma BoundIsReached(limit: nat)
    requires limit >= 1
    ensures Ordered(Worst(limit)) && Admitted(limit, Worst(limit), SECOND, SECOND + SECOND) == 2 * limit - 1
  {
    WorstIsOrdered(limit);
    OneMore(limit, [], 1, SECOND);
    assert [] + [1] == [1];
    assert After(limit, []) == FRESH && Admitted(limit, [], SECOND, SECOND + SECOND) == 0;
    hide After, Admitted, Ordered, Burst;
    BurstIsAdmitted(limit, [1], SECOND, limit - 1, SECOND);
    var first := [1] + Burst(SECOND, limit - 1);
    OneMore(limit, first, SECOND + 1, SECOND);
    BurstIsAdmitted(limit, first + [SECOND + 1], SECOND + 1, limit - 1, SECOND);
  }
}
