/**
 The two sliding-window limiters: the agent's and the one in front of pull_frame.
 Each keeps a deque of admission times; the lemmas compare it with the full log.
 */
module RateLimit {
  const WINDOW := 60.0

  /** popleft while the oldest is before the cutoff. */
  function DropOld(w: seq<real>, cutoff: real): seq<real> {
    if w != [] && w[0] < cutoff then DropOld(w[1..], cutoff) else w
  }

  /** The deque after calls at these times. */
  function Deque(times: seq<real>, max: nat): seq<real> {
    if times == [] then []
    else
      var now := times[|times| - 1];
      var kept := DropOld(Deque(times[..|times| - 1], max), now - WINDOW);
      if |kept| >= max then kept else kept + [now]
  }

  /** Whether a call at this time is admitted after these calls. */
  predicate Admits(times: seq<real>, now: real, max: nat) {
    |DropOld(Deque(times, max), now - WINDOW)| < max
  }

  /** The full log of admissions. */
  function Admitted(times: seq<real>, max: nat): seq<real> {
    if times == [] then []
    else
      var before, now := times[..|times| - 1], times[|times| - 1];
      if Admits(before, now, max) then Admitted(before, max) + [now] else Admitted(before, max)
  }

  class SlidingWindow {
    const max: nat
    var window: seq<real>
    ghost var times: seq<real>

    ghost predicate Valid()
      reads this
    {
      window == Deque(times, max)
    }

    constructor (max: nat)
      ensures Valid() && this.max == max && times == []
    {
      this.max, window, times := max, [], [];
    }

    /** allow() and _rate_limit_check(), which raises where this returns false. */
    method Allow(now: real) returns (ok: bool)
      requires Valid()
      modifies this
      ensures Valid() && times == old(times) + [now]
      ensures ok == Admits(old(times), now, max)
    {
      var cutoff := now - WINDOW;
      while window != [] && window[0] < cutoff
        invariant DropOld(window, cutoff) == DropOld(old(window), cutoff)
        invariant times == old(times)
        decreases |window|
      {
        window := window[1..];
      }
      times := times + [now];
      assert times[..|times| - 1] == old(times);
      if |window| >= max {
        return false;
      }
      window := window + [now];
      return true;
    }
  }

  // ---------------------------------------------------------------------
  // The deque against the log
  // ---------------------------------------------------------------------

  ghost predicate Nondecreasing(s: seq<real>) {
    forall i, j :: 0 <= i < j < |s| ==> s[i] <= s[j]
  }

  ghost predicate UpTo(s: seq<real>, hi: real) {
    forall i :: 0 <= i < |s| ==> s[i] <= hi
  }

  /** The times of s in the closed interval from lo to hi. */
  function Between(s: seq<real>, lo: real, hi: real): seq<real> {
    if s == [] then []
    else
      var before, last := Between(s[..|s| - 1], lo, hi), s[|s| - 1];
      if lo <= last <= hi then before + [last] else before
  }

  /** The times of s from the cutoff on. */
  function Since(s: seq<real>, cutoff: real): seq<real> {
    if s == [] then []
    else
      var before, last := Since(s[..|s| - 1], cutoff), s[|s| - 1];
      if cutoff <= last then before + [last] else before
  }

  lemma {:induction false} DropOldAppend(w: seq<real>, x: real, cutoff: real)
    requires cutoff <= x
    ensures DropOld(w + [x], cutoff) == DropOld(w, cutoff) + [x]
  {
    if w != [] && w[0] < cutoff {
      assert (w + [x])[1..] == w[1..] + [x];
      DropOldAppend(w[1..], x, cutoff);
    }
  }

  lemma {:induction false} DropAll(w: seq<real>, x: real, cutoff: real)
    requires x < cutoff && UpTo(w, x)
    ensures DropOld(w + [x], cutoff) == DropOld(w, cutoff) == []
  {
    if w != [] {
      assert (w + [x])[1..] == w[1..] + [x];
      DropAll(w[1..], x, cutoff);
    } else {
      assert [] + [x] == [x];
    }
  }

  lemma {:induction false} SinceUpTo(s: seq<real>, cutoff: real, hi: real)
    requires UpTo(s, hi)
    ensures UpTo(Since(s, cutoff), hi)
  {
    if s != [] {
      SinceUpTo(s[..|s| - 1], cutoff, hi);
    }
  }

  /** Dropping the old times of a sorted list is the same as keeping the recent ones. */
  lemma {:induction false} DropOldIsSince(s: seq<real>, older: real, cutoff: real)
    requires Nondecreasing(s) && older <= cutoff
    ensures DropOld(Since(s, older), cutoff) == Since(s, cutoff)
  {
    if s != [] {
      var init, last := s[..|s| - 1], s[|s| - 1];
      DropOldIsSince(init, older, cutoff);
      SinceUpTo(init, older, last);
      if cutoff <= last {
        DropOldAppend(Since(init, older), last, cutoff);
      } else if older <= last {
        DropAll(Since(init, older), last, cutoff);
      }
    }
  }

  lemma {:induction false} AdmittedTimes(times: seq<real>, max: nat, hi: real)
    requires Nondecreasing(times) && UpTo(times, hi)
    ensures Nondecreasing(Admitted(times, max)) && UpTo(Admitted(times, max), hi)
  {
    if times != [] {
      AdmittedTimes(times[..|times| - 1], max, times[|times| - 1]);
    }
  }

  /** Before any later call the deque, trimmed, holds exactly the recent part of the log. */
  lemma {:induction false} DequeIsRecentLog(times: seq<real>, now: real, max: nat)
    requires Nondecreasing(times) && UpTo(times, now)
    ensures DropOld(Deque(times, max), now - WINDOW) == Since(Admitted(times, max), now - WINDOW)
  {
    if times != [] {
      var before, last := times[..|times| - 1], times[|times| - 1];
      DequeIsRecentLog(before, last, max);
      DequeStep(times, max);
      AdmittedTimes(times, max, now);
      DropOldIsSince(Admitted(times, max), last - WINDOW, now - WINDOW);
    }
  }

  lemma DequeStep(times: seq<real>, max: nat)
    requires times != []
    requires var before, last := times[..|times| - 1], times[|times| - 1]; DropOld(Deque(before, max), last - WINDOW) == Since(Admitted(before, max), last - WINDOW)
    ensures Deque(times, max) == Since(Admitted(times, max), times[|times| - 1] - WINDOW)
  {
  }

  lemma {:induction false} BetweenIsSince(s: seq<real>, lo: real, hi: real)
    requires UpTo(s, hi)
    ensures Between(s, lo, hi) == Since(s, lo)
  {
    if s != [] {
      BetweenIsSince(s[..|s| - 1], lo, hi);
    }
  }

  /** A call is refused exactly when max admitted calls lie in the last 60 seconds of the whole log. */
  lemma AdmitsIff(times: seq<real>, now: real, max: nat)
    requires Nondecreasing(times) && UpTo(times, now)
    ensures Admits(times, now, max) <==> |Between(Admitted(times, max), now - 60.0, now)| < max
  {
    DequeIsRecentLog(times, now, max);
    AdmittedTimes(times, max, now);
    BetweenIsSince(Admitted(times, max), now - WINDOW, now);
  }

  lemma {:induction false} BetweenShrinks(s: seq<real>, lo: real, lo': real, hi: real, hi': real)
    requires lo <= lo' && hi' <= hi
    ensures |Between(s, lo', hi')| <= |Between(s, lo, hi)|
  {
    if s != [] {
      BetweenShrinks(s[..|s| - 1], lo, lo', hi, hi');
    }
  }

  /** No closed interval of 60 seconds, anywhere in the history, holds more than max admitted calls. */
  lemma {:induction false} AtMostMaxPerMinute(times: seq<real>, max: nat, lo: real)
    requires Nondecreasing(times)
    ensures |Between(Admitted(times, max), lo, lo + 60.0)| <= max
  {
    if times != [] {
      var before, now := times[..|times| - 1], times[|times| - 1];
      AtMostMaxPerMinute(before, max, lo);
      if Admits(before, now, max) {
        var log := Admitted(before, max);
        BetweenSnoc(log, now, lo, lo + WINDOW);
        if lo <= now <= lo + WINDOW {
          RoomForOne(before, now, max, lo);
        }
      }
    }
  }

  lemma BetweenSnoc(s: seq<real>, x: real, lo: real, hi: real)
    ensures |Between(s + [x], lo, hi)| == |Between(s, lo, hi)| + if lo <= x <= hi then 1 else 0
  {
    assert (s + [x])[..|s|] == s;
  }

  /** A window that a newly admitted call falls into held fewer than max before. */
  lemma RoomForOne(times: seq<real>, now: real, max: nat, lo: real)
    requires Nondecreasing(times) && UpTo(times, now) && Admits(times, now, max)
    requires lo <= now <= lo + WINDOW
    ensures |Between(Admitted(times, max), lo, lo + WINDOW)| < max
  {
    var log := Admitted(times, max);
    AdmitsIff(times, now, max);
    AdmittedTimes(times, max, now);
    BetweenIsSince(log, lo, lo + WINDOW);
    BetweenIsSince(log, lo, now);
    BetweenShrinks(log, now - WINDOW, lo, now, now);
  }
}
