/** The fixed-window limit on CHAT messages of one context. */
module RateLimit {

  /** A window starts at `windowStart`; zero means that none has started. */
  datatype Window = Window(windowStart: int, msgCount: int)

  const NO_WINDOW := Window(0, 0)

  /** What one CHAT at time `now` does, and whether it is let through. */
  function Admit(s: Window, now: int, window: int, limit: int): (Window, bool)
  {
    var t := if s.windowStart == 0 || now - s.windowStart > window then Window(now, 0) else s;
    (Window(t.windowStart, t.msgCount + 1), t.msgCount + 1 <= limit)
  }

  class Limiter {
    var rateWindowStart: int
    var rateMsgCount: int

    constructor ()
      ensures Window(rateWindowStart, rateMsgCount) == NO_WINDOW
    {
      rateWindowStart, rateMsgCount := 0, 0;
    }

    method Check(now: int, window: int, limit: int) returns (ok: bool)
      modifies this
      ensures (Window(rateWindowStart, rateMsgCount), ok) ==
              Admit(Window(old(rateWindowStart), old(rateMsgCount)), now, window, limit)
    {
      if rateWindowStart == 0 || now - rateWindowStart > window {
        rateWindowStart := now;
        rateMsgCount := 0;
      }
      rateMsgCount := rateMsgCount + 1;
      ok := !(rateMsgCount > limit);
    }
  }

  /** Messages let through in [a, b] when CHATs come at the times `ts`. */
  function Accepted(s: Window, ts: seq<int>, window: int, limit: int, a: int, b: int): nat
    decreases ts
  {
    if ts == [] then 0
    else
      var (t, ok) := Admit(s, ts[0], window, limit);
      (if ok && a <= ts[0] <= b then 1 else 0) + Accepted(t, ts[1..], window, limit, a, b)
  }

  predicate Times(ts: seq<int>)
  {
    && (forall i :: 0 <= i < |ts| ==> 0 < ts[i])
    && (forall i, j :: 0 <= i < j < |ts| ==> ts[i] <= ts[j])
  }

  /** The most windows that can start in [x, b]. */
  function Windows(x: int, b: int, window: nat): nat
  {
    if x > b then 0 else (b - x) / (window + 1) + 1
  }

  /** A window that starts at `t` uses up one of those that fit from `x` on. */
  lemma NextWindow(x: int, t: int, b: int, window: nat)
    requires x <= t <= b
    ensures 1 + Windows(t + window + 1, b, window) <= Windows(x, b, window)
  {
    var k := window + 1;
    if t + k <= b {
      DivStep(b - t - k, k);
    }
    DivMono(b - t, b - x, k);
  }

  lemma MulMono(k: nat, m: int, n: int)
    requires m <= n
    ensures k * m <= k * n
  {
  }

  lemma DivStep(n: nat, k: nat)
    requires k > 0
    ensures (n + k) / k == n / k + 1
  {
    var d, e := (n + k) / k, n / k;
    assert n == k * e + n % k && n + k == k * d + (n + k) % k;
    if d < e + 1 {
      MulMono(k, d, e);
    } else if d > e + 1 {
      MulMono(k, e + 2, d);
    }
  }

  lemma DivMono(m: nat, n: nat, k: nat)
    requires k > 0 && m <= n
    ensures m / k <= n / k
  {
    assert m == k * (m / k) + m % k && n == k * (n / k) + n % k;
    if m / k > n / k {
      MulMono(k, n / k + 1, m / k);
    }
  }

  /** What is left of the current window. */
  function Room(s: Window, limit: nat): nat
  {
    if s.msgCount < limit then limit - s.msgCount else 0
  }

  /** From a running window: its room, plus a full limit for every window that can
      still start, none of them before `x`. */
  lemma {:induction false} BoundFromWindow(s: Window, ts: seq<int>, window: nat, limit: nat, a: int, b: int, x: int)
    requires 0 < s.windowStart && 0 <= s.msgCount && Times(ts)
    requires forall i :: 0 <= i < |ts| ==> x <= ts[i] || ts[i] < s.windowStart + window + 1
    ensures Accepted(s, ts, window, limit, a, b) <= Room(s, limit) + limit * Windows(x, b, window)
    decreases ts
  {
    if ts != [] {
      var t := ts[0];
      var (u, ok) := Admit(s, t, window, limit);
      if t - s.windowStart > window {
        if t <= b {
          BoundFromWindow(u, ts[1..], window, limit, a, b, t + window + 1);
          NextWindow(x, t, b, window);
          Scale(1 + Windows(t + window + 1, b, window), Windows(x, b, window), limit);
        } else {
          NothingAfter(s, ts, window, limit, a, b);
        }
      } else {
        BoundFromWindow(u, ts[1..], window, limit, a, b, x);
      }
    }
  }

  lemma Scale(m: nat, n: nat, limit: nat)
    requires m <= n
    ensures limit * m <= limit * n && limit * m == if m == 0 then 0 else limit + limit * (m - 1)
  {
  }

  lemma {:induction false} NothingAfter(s: Window, ts: seq<int>, window: int, limit: int, a: int, b: int)
    requires forall i :: 0 <= i < |ts| ==> b < ts[i]
    ensures Accepted(s, ts, window, limit, a, b) == 0
    decreases ts
  {
    if ts != [] {
      NothingAfter(Admit(s, ts[0], window, limit).0, ts[1..], window, limit, a, b);
    }
  }

  /** The limit holds inside one window. */
  lemma {:induction false} BoundInWindow(s: Window, ts: seq<int>, window: nat, limit: nat, a: int, b: int)
    requires 0 < s.windowStart && 0 <= s.msgCount
    requires forall i :: 0 <= i < |ts| ==> ts[i] - s.windowStart <= window
    ensures Accepted(s, ts, window, limit, a, b) <= Room(s, limit) <= limit
    decreases ts
  {
    if ts != [] {
      BoundInWindow(Admit(s, ts[0], window, limit).0, ts[1..], window, limit, a, b);
    }
  }

  lemma {:induction false} BoundByWindows(s: Window, ts: seq<int>, window: nat, limit: nat, a: int, b: int)
    requires 0 <= s.windowStart && 0 <= s.msgCount && Times(ts)
    ensures Accepted(s, ts, window, limit, a, b) <= limit + limit * Windows(a, b, window)
    decreases ts
  {
    hide Windows;
    if ts != [] {
      var u := Admit(s, ts[0], window, limit).0;
      if ts[0] < a {
        BoundByWindows(u, ts[1..], window, limit, a, b);
      } else if s.windowStart == 0 {
        BoundFromWindow(u, ts[1..], window, limit, a, b, a);
      } else {
        BoundFromWindow(s, ts, window, limit, a, b, a);
      }
    }
  }

  /** The rate-limit bound: whatever came before and whenever the CHATs come, at most
      two limits, and one more for every full window length, are let through in any
      interval. */
  lemma RateLimitBound(s: Window, ts: seq<int>, window: nat, limit: nat, a: int, b: int)
    requires 0 <= s.windowStart && 0 <= s.msgCount && Times(ts) && a <= b
    ensures Accepted(s, ts, window, limit, a, b) <= limit * ((b - a) / (window + 1) + 2)
  {
    BoundByWindows(s, ts, window, limit, a, b);
    var n := Windows(a, b, window);
    assert n + 1 == (b - a) / (window + 1) + 2;
    Scale(n + 1, n + 1, limit);
  }

  // ---------------------------------------------------------------- who passes

  /** The verdicts on CHATs at the times `ts`, one by one. */
  function Verdicts(s: Window, ts: seq<int>, window: int, limit: int): (r: seq<bool>)
    ensures |r| == |ts|
    decreases ts
  {
    if ts == [] then []
    else var (t, ok) := Admit(s, ts[0], window, limit); [ok] + Verdicts(t, ts[1..], window, limit)
  }

  /** Which CHAT started the window of CHAT `i`, from the times alone. */
  function FirstOf(ts: seq<int>, window: int, i: nat): (f: nat)
    requires i < |ts|
    ensures f <= i
  {
    if i == 0 then 0
    else var f := FirstOf(ts, window, i - 1); if ts[i] - ts[f] > window then i else f
  }

  /** The limiter after these CHATs. */
  function After(s: Window, ts: seq<int>, window: int, limit: int): Window
    decreases ts
  {
    if ts == [] then s else After(Admit(s, ts[0], window, limit).0, ts[1..], window, limit)
  }

  lemma {:induction false} VerdictAt(s: Window, ts: seq<int>, window: int, limit: int, i: nat)
    requires i < |ts|
    ensures Verdicts(s, ts, window, limit)[i] == Admit(After(s, ts[..i], window, limit), ts[i], window, limit).1
    ensures After(s, ts[..i + 1], window, limit) == Admit(After(s, ts[..i], window, limit), ts[i], window, limit).0
    decreases i
  {
    var t := Admit(s, ts[0], window, limit).0;
    assert ts[..i + 1][1..] == ts[1..][..i];
    if i == 0 {
      assert ts[..0] == [] && ts[1..][..0] == [];
    } else {
      assert ts[..i][1..] == ts[1..][..i - 1];
      VerdictAt(t, ts[1..], window, limit, i - 1);
    }
  }

  /** The state of the limiter in terms of the times alone. */
  lemma {:induction false} WindowAfter(ts: seq<int>, window: int, limit: int, i: nat)
    requires i < |ts| && forall j :: 0 <= j < |ts| ==> 0 < ts[j]
    ensures var f := FirstOf(ts, window, i);
            After(NO_WINDOW, ts[..i + 1], window, limit) == Window(ts[f], i - f + 1)
    decreases i
  {
    VerdictAt(NO_WINDOW, ts, window, limit, i);
    hide After;
    if i == 0 {
      NothingYet(ts, window, limit);
    } else {
      WindowAfter(ts, window, limit, i - 1);
    }
  }

  lemma NothingYet(ts: seq<int>, window: int, limit: int)
    ensures After(NO_WINDOW, ts[..0], window, limit) == NO_WINDOW
  {
  }

  /** A CHAT passes exactly if fewer CHATs than the limit came before it in its window,
      whatever the times and the settings. */
  lemma PassesIffBelowLimit(ts: seq<int>, window: int, limit: int, i: nat)
    requires i < |ts| && forall j :: 0 <= j < |ts| ==> 0 < ts[j]
    ensures Verdicts(NO_WINDOW, ts, window, limit)[i] <==> i - FirstOf(ts, window, i) < limit
  {
    VerdictAt(NO_WINDOW, ts, window, limit, i);
    hide After;
    if i == 0 {
      NothingYet(ts, window, limit);
    } else {
      WindowAfter(ts, window, limit, i - 1);
    }
  }

  /** The count of the bounds above is the count of these verdicts. */
  function Passed(ts: seq<int>, ok: seq<bool>, a: int, b: int): nat
    requires |ok| == |ts|
  {
    if ts == [] then 0 else (if ok[0] && a <= ts[0] <= b then 1 else 0) + Passed(ts[1..], ok[1..], a, b)
  }

  lemma {:induction false} AcceptedArePassed(s: Window, ts: seq<int>, window: int, limit: int, a: int, b: int)
    ensures Accepted(s, ts, window, limit, a, b) == Passed(ts, Verdicts(s, ts, window, limit), a, b)
    decreases ts
  {
    if ts != [] {
      var t := Admit(s, ts[0], window, limit).0;
      AcceptedArePassed(t, ts[1..], window, limit, a, b);
      assert Verdicts(s, ts, window, limit)[1..] == Verdicts(t, ts[1..], window, limit);
    }
  }

  /** In one window everything passes until the limit is reached. */
  lemma OneWindowPassesLimit(ts: seq<int>, window: int, limit: nat)
    requires forall j :: 0 <= j < |ts| ==> 0 < ts[j] && ts[j] - ts[0] <= window
    ensures forall i :: 0 <= i < |ts| ==> (Verdicts(NO_WINDOW, ts, window, limit)[i] <==> i < limit)
  {
    forall i | 0 <= i < |ts|
      ensures Verdicts(NO_WINDOW, ts, window, limit)[i] <==> i < limit
    {
      OneWindow(ts, window, i);
      PassesIffBelowLimit(ts, window, limit, i);
    }
  }

  lemma {:induction false} OneWindow(ts: seq<int>, window: int, i: nat)
    requires i < |ts| && forall j :: 0 <= j < |ts| ==> ts[j] - ts[0] <= window
    ensures FirstOf(ts, window, i) == 0
    decreases i
  {
    if i > 0 {
      OneWindow(ts, window, i - 1);
    }
  }

  // ---------------------------------------------------------------- a negative window

  function Arrivals(ts: seq<int>, a: int, b: int): nat
  {
    if ts == [] then 0 else (if a <= ts[0] <= b then 1 else 0) + Arrivals(ts[1..], a, b)
  }

  /** A negative window length switches the limit off: every CHAT starts a window of
      its own. */
  lemma {:induction false} NegativeWindowLimitsNothing(s: Window, ts: seq<int>, window: int, limit: int, a: int, b: int)
    requires window < 0 < limit && Times(ts)
    requires forall i :: 0 <= i < |ts| ==> s.windowStart <= ts[i]
    ensures Accepted(s, ts, window, limit, a, b) == Arrivals(ts, a, b)
    decreases ts
  {
    if ts != [] {
      NegativeWindowLimitsNothing(Admit(s, ts[0], window, limit).0, ts[1..], window, limit, a, b);
    }
  }
}
